/** Following CNAME records within and across split DNS responses. */
module SplitDns {
  import opened Text

  type Address = seq<nat>

  datatype RecordType = A | AAAA

  datatype Body = AddressA(bytes: seq<nat>) | AddressAAAA(bytes: seq<nat>) | CName(target: string) | OtherBody
  datatype Answer = Answer(owner: string, inet: bool, body: Body)
  datatype Question = Question(name: string, typ: Option<RecordType>, inet: bool)

  /** A decoded response. */
  datatype Message = Message(response: bool, truncated: bool, success: bool, questions: seq<Question>, answers: seq<Answer>)

  /** What a query returns: an error, undecodable bytes, or a message. */
  datatype Reply = QueryError | Garbled | Decoded(message: Message)

  /** One response followed to its end: addresses and the name that owns them, a last
      name without any, or an error. */
  datatype Outcome = Found(ips: seq<Address>, owner: string) | Ended(canonical: string) | Failed

  datatype Result = Ok(ips: seq<Address>) | Error

  const MAX := 16

  /** `Addr.Unmap` on sixteen bytes. */
  function Unmapped(bytes: seq<nat>): Address {
    if |bytes| == 16 && (forall i | 0 <= i < 10 :: bytes[i] == 0) && bytes[10] == 255 && bytes[11] == 255
    then bytes[12..] else bytes
  }

  /** What one answer adds for `name`. */
  function AddressIn(a: Answer, owner: string, name: string, typ: RecordType): seq<Address> {
    if !a.inet || owner != name then []
    else if a.body.AddressA? && typ == A then [a.body.bytes]
    else if a.body.AddressAAAA? && typ == AAAA then [Unmapped(a.body.bytes)]
    else []
  }

  function AliasIn(a: Answer, owner: string, name: string): Option<string> {
    if a.inet && owner == name && a.body.CName? then Some(Lower(a.body.target)) else None
  }

  function Later(alias: Option<string>, earlier: Option<string>): Option<string> {
    if alias.Some? then alias else earlier
  }

  /** The addresses the answers give `name`, in order. */
  function AddressesOf(answers: seq<Answer>, name: string, typ: RecordType): seq<Address> {
    if answers == [] then []
    else
      var last := answers[|answers| - 1];
      AddressesOf(answers[..|answers| - 1], name, typ) + AddressIn(last, Lower(last.owner), name, typ)
  }

  /** The target of the last CNAME record of `name`. */
  function AliasOf(answers: seq<Answer>, name: string): Option<string> {
    if answers == [] then None
    else
      var last := answers[|answers| - 1];
      Later(AliasIn(last, Lower(last.owner), name), AliasOf(answers[..|answers| - 1], name))
  }

  predicate Validated(reply: Reply, name: string, typ: RecordType) {
    && reply.Decoded?
    && var m := reply.message;
    && m.response && !m.truncated && m.success && |m.questions| == 1
    && Lower(m.questions[0].name) == Lower(name) && m.questions[0].typ == Some(typ) && m.questions[0].inet
  }

  /** What one response says about a name. */
  datatype Entry = Entry(ips: seq<Address>, alias: Option<string>)

  type Zone = string -> Entry

  function ZoneOf(answers: seq<Answer>, typ: RecordType): Zone {
    (name: string) => Entry(AddressesOf(answers, name, typ), AliasOf(answers, name))
  }

  /** A response that does not answer the question says nothing. */
  function ZoneIn(reply: Reply, name: string, typ: RecordType): Option<Zone> {
    if Validated(reply, name, typ) then Some(ZoneOf(reply.message.answers, typ)) else None
  }

  /** The name `k` links down the chain that starts at `name`. */
  function Hop(zone: Zone, name: string, k: nat): Option<string>
    decreases k
  {
    if k == 0 then Some(name)
    else if zone(name).alias.None? then None
    else Hop(zone, zone(name).alias.value, k - 1)
  }

  /** The plain walk: at most `MAX` names, without loop detection. */
  function Scan(zone: Zone, name: string, k: nat): Outcome
    decreases MAX - k
  {
    if k >= MAX then Failed
    else if zone(name).ips != [] then Found(zone(name).ips, name)
    else if zone(name).alias.None? then Ended(name)
    else Scan(zone, zone(name).alias.value, k + 1)
  }

  function Resolve(zone: Option<Zone>, name: string): Outcome {
    if zone.Some? then Scan(zone.value, name, 0) else Failed
  }

  // ---------- one response ----------

  function AddressEntry(addresses: map<string, seq<Address>>, name: string): seq<Address> {
    if name in addresses then addresses[name] else []
  }

  function AliasEntry(aliases: map<string, string>, name: string): Option<string> {
    if name in aliases then Some(aliases[name]) else None
  }

  /** The tables hold exactly what the response says. */
  ghost predicate Tabulates(addresses: map<string, seq<Address>>, aliases: map<string, string>, zone: Zone) {
    forall name :: Entry(AddressEntry(addresses, name), AliasEntry(aliases, name)) == zone(name)
  }

  method AddAnswer(a: Answer, owner: string, typ: RecordType, addresses: map<string, seq<Address>>, aliases: map<string, string>,
                   ghost zone: Zone, ghost zone': Zone)
    returns (addresses': map<string, seq<Address>>, aliases': map<string, string>)
    requires Tabulates(addresses, aliases, zone) && Adds(zone, a, owner, typ, zone')
    ensures Tabulates(addresses', aliases', zone')
  {
    addresses', aliases' := addresses, aliases;
    if !a.inet {
      return;
    }
    match a.body {
      case AddressA(bytes) =>
        if typ == A {
          addresses' := addresses[owner := AddressEntry(addresses, owner) + [bytes]];
        }
      case AddressAAAA(bytes) =>
        if typ == AAAA {
          addresses' := addresses[owner := AddressEntry(addresses, owner) + [Unmapped(bytes)]];
        }
      case CName(target) => aliases' := aliases[owner := Lower(target)];
      case OtherBody =>
    }
  }

  /** One more answer: what the response then says about each name. */
  ghost predicate Adds(zone: Zone, a: Answer, owner: string, typ: RecordType, zone': Zone) {
    forall name :: zone'(name) == Entry(zone(name).ips + AddressIn(a, owner, name, typ), Later(AliasIn(a, owner, name), zone(name).alias))
  }

  lemma {:induction false} OneMoreAnswer(answers: seq<Answer>, i: nat, typ: RecordType)
    requires i < |answers|
    ensures Adds(ZoneOf(answers[..i], typ), answers[i], Lower(answers[i].owner), typ, ZoneOf(answers[..i + 1], typ))
  {
    assert answers[..i + 1][..i] == answers[..i];
  }

  lemma {:induction false} NoAnswers(typ: RecordType)
    ensures Tabulates(map[], map[], ZoneOf([], typ))
  {
  }

  method Tabulate(answers: seq<Answer>, typ: RecordType) returns (addresses: map<string, seq<Address>>, aliases: map<string, string>)
    ensures Tabulates(addresses, aliases, ZoneOf(answers, typ))
  {
    addresses, aliases := map[], map[];
    var i := 0;
    NoAnswers(typ);
    assert answers[..0] == [];
    ghost var zone := ZoneOf([], typ);
    while i < |answers|
      invariant 0 <= i <= |answers| && zone == ZoneOf(answers[..i], typ) && Tabulates(addresses, aliases, zone)
    {
      OneMoreAnswer(answers, i, typ);
      ghost var next := ZoneOf(answers[..i + 1], typ);
      addresses, aliases := AddAnswer(answers[i], Lower(answers[i].owner), typ, addresses, aliases, zone, next);
      zone := next;
      i := i + 1;
    }
    assert answers[..i] == answers;
  }

  /** Names without addresses whose aliases stay among them lead nowhere. */
  predicate DeadEnd(zone: Zone, names: set<string>) {
    forall n | n in names :: zone(n).ips == [] && zone(n).alias.Some? && zone(n).alias.value in names
  }

  lemma {:induction false} DeadEndFails(zone: Zone, names: set<string>, name: string, k: nat)
    requires DeadEnd(zone, names) && name in names
    ensures Scan(zone, name, k) == Failed
    decreases MAX - k
  {
    if k < MAX {
      DeadEndFails(zone, names, zone(name).alias.value, k + 1);
    }
  }

  /** The walk with loop detection is the plain walk. */
  method FollowAliases(addresses: map<string, seq<Address>>, aliases: map<string, string>, start: string, ghost zone: Zone)
    returns (r: Outcome)
    requires Tabulates(addresses, aliases, zone)
    ensures r == Scan(zone, start, 0)
  {
    var name := start;
    var seen: set<string> := {};
    var k := 0;
    while k < MAX
      invariant 0 <= k <= MAX && Scan(zone, start, 0) == Scan(zone, name, k)
      invariant forall n | n in seen :: zone(n).ips == [] && zone(n).alias.Some? && zone(n).alias.value in seen + {name}
    {
      if name in seen {
        assert seen + {name} == seen;
        DeadEndFails(zone, seen, name, k);
        return Failed;
      }
      seen := seen + {name};
      assert Entry(AddressEntry(addresses, name), AliasEntry(aliases, name)) == zone(name);
      if name in addresses && addresses[name] != [] {
        return Found(addresses[name], name);
      }
      if name !in aliases {
        return Ended(name);
      }
      name := aliases[name];
      k := k + 1;
    }
    r := Failed;
  }

  method SplitDnsAnswers(reply: Reply, name: string, typ: RecordType) returns (r: Outcome)
    ensures r == Resolve(ZoneIn(reply, name, typ), name)
  {
    if !reply.Decoded? {
      return Failed;
    }
    var m := reply.message;
    if !m.response || m.truncated || !m.success {
      return Failed;
    }
    if |m.questions| != 1 || Lower(m.questions[0].name) != Lower(name) || m.questions[0].typ != Some(typ) || !m.questions[0].inet {
      return Failed;
    }
    var addresses, aliases := Tabulate(m.answers, typ);
    r := FollowAliases(addresses, aliases, name, ZoneOf(m.answers, typ));
  }

  /** `n` links down the chain is its first name that has addresses. */
  predicate FirstOwner(zone: Zone, name: string, n: nat) {
    && Hop(zone, name, n).Some? && zone(Hop(zone, name, n).value).ips != []
    && forall k | 0 <= k < n :: Hop(zone, name, k).Some? && zone(Hop(zone, name, k).value).ips == []
  }

  lemma {:induction false} HopNext(zone: Zone, name: string, n: nat)
    requires n > 0 && zone(name).alias.Some?
    ensures Hop(zone, name, n) == Hop(zone, zone(name).alias.value, n - 1)
  {
  }

  lemma {:induction false} OwnerBehind(zone: Zone, name: string, n: nat)
    requires zone(name).ips == [] && zone(name).alias.Some?
    ensures FirstOwner(zone, name, n + 1) <==> FirstOwner(zone, zone(name).alias.value, n)
  {
    var next := zone(name).alias.value;
    if FirstOwner(zone, name, n + 1) {
      forall j | 0 <= j < n ensures Hop(zone, next, j).Some? && zone(Hop(zone, next, j).value).ips == [] {
        HopNext(zone, name, j + 1);
      }
    }
    if FirstOwner(zone, next, n) {
      forall j | 0 <= j < n + 1 ensures Hop(zone, name, j).Some? && zone(Hop(zone, name, j).value).ips == [] {
        if j > 0 {
          HopNext(zone, name, j);
        }
      }
    }
  }

  lemma {:induction false} ScanFindsFirst(zone: Zone, name: string, k: nat, n: nat)
    requires FirstOwner(zone, name, n) && k + n < MAX
    ensures Scan(zone, name, k) == Found(zone(Hop(zone, name, n).value).ips, Hop(zone, name, n).value)
    decreases n
  {
    if n > 0 {
      assert Hop(zone, name, 0) == Some(name);
      OwnerBehind(zone, name, n - 1);
      ScanFindsFirst(zone, zone(name).alias.value, k + 1, n - 1);
    }
  }

  /** Conversely, what the walk finds belongs to the first owner on the chain. */
  lemma {:induction false} FoundIsFirst(zone: Zone, name: string, k: nat) returns (n: nat)
    requires Scan(zone, name, k).Found?
    ensures k + n < MAX && FirstOwner(zone, name, n)
    ensures Scan(zone, name, k) == Found(zone(Hop(zone, name, n).value).ips, Hop(zone, name, n).value)
    decreases MAX - k
  {
    if zone(name).ips != [] {
      n := 0;
    } else {
      n := FoundIsFirst(zone, zone(name).alias.value, k + 1);
      OwnerBehind(zone, name, n);
      n := n + 1;
    }
  }

  /** On a chain whose last name has addresses there is a first name that has. */
  lemma {:induction false} FirstExists(zone: Zone, name: string, last: nat) returns (n: nat)
    requires Hop(zone, name, last).Some? && zone(Hop(zone, name, last).value).ips != []
    ensures n <= last && FirstOwner(zone, name, n)
    decreases last
  {
    if zone(name).ips != [] {
      n := 0;
    } else {
      n := FirstExists(zone, zone(name).alias.value, last - 1);
      OwnerBehind(zone, name, n);
      n := n + 1;
    }
  }

  // ---------- across responses ----------

  /** The reply to the one query made for a name. */
  type Query = string -> Reply

  /** What each name's response says about all names. */
  type Zones = string -> Option<Zone>

  function ZonesOf(query: Query, typ: RecordType): Zones {
    (name: string) => ZoneIn(query(name), name, typ)
  }

  /** The plain chase: at most `MAX` queries, without loop detection. */
  function Chase(zones: Zones, name: string, k: nat): Result
    decreases MAX - k
  {
    if k >= MAX then Error
    else
      match Resolve(zones(name), name)
      case Failed => Error
      case Found(ips, _) => Ok(ips)
      case Ended(canonical) => if canonical == name then Ok([]) else Chase(zones, canonical, k + 1)
  }

  predicate Distinct(s: seq<string>) { forall i, j | 0 <= i < j < |s| :: s[i] != s[j] }

  /** `b` is an alias of `a` in the validated response to one of the queries. */
  predicate Linked(zones: Zones, asked: seq<string>, a: string, b: string) {
    exists i :: 0 <= i < |asked| && zones(asked[i]).Some? && zones(asked[i]).value(a).alias == Some(b)
  }

  predicate LinkPath(zones: Zones, asked: seq<string>, path: seq<string>) {
    |path| > 0 && forall i | 0 <= i < |path| - 1 :: Linked(zones, asked, path[i], path[i + 1])
  }

  /** `ips` are the addresses a validated response gives to `owner`. */
  predicate OwnedBy(zones: Zones, asked: seq<string>, ips: seq<Address>, owner: string) {
    exists i :: 0 <= i < |asked| && zones(asked[i]).Some? && zones(asked[i]).value(owner).ips == ips
  }

  ghost predicate Justified(zones: Zones, asked: seq<string>, start: string, ips: seq<Address>) {
    exists path :: LinkPath(zones, asked, path) && path[0] == start && OwnedBy(zones, asked, ips, path[|path| - 1])
  }

  lemma {:induction false} AskedMore(zones: Zones, asked: seq<string>, more: string, path: seq<string>)
    requires LinkPath(zones, asked, path)
    ensures LinkPath(zones, asked + [more], path)
  {
    forall i | 0 <= i < |path| - 1 ensures Linked(zones, asked + [more], path[i], path[i + 1]) {
      assert Linked(zones, asked, path[i], path[i + 1]);
      var j :| 0 <= j < |asked| && zones(asked[j]).Some? && zones(asked[j]).value(path[i]).alias == Some(path[i + 1]);
      assert (asked + [more])[j] == asked[j];
    }
  }

  /** The last name of a walk through one response. */
  function EndOf(o: Outcome): string
    requires !o.Failed?
  {
    if o.Found? then o.owner else o.canonical
  }

  lemma {:induction false} LinkMore(zones: Zones, asked: seq<string>, path: seq<string>, next: string)
    requires LinkPath(zones, asked, path) && Linked(zones, asked, path[|path| - 1], next)
    ensures LinkPath(zones, asked, path + [next])
  {
  }

  /** A walk through the response to the last query extends a path of links. */
  lemma {:induction false} ScanExtends(zones: Zones, asked: seq<string>, path: seq<string>, zone: Zone, k: nat) returns (r: seq<string>)
    requires asked != [] && LinkPath(zones, asked, path) && zones(asked[|asked| - 1]) == Some(zone)
    requires !Scan(zone, path[|path| - 1], k).Failed?
    ensures LinkPath(zones, asked, r) && r[0] == path[0] && r[|r| - 1] == EndOf(Scan(zone, path[|path| - 1], k))
    decreases MAX - k
  {
    var name := path[|path| - 1];
    r := path;
    if zone(name).ips == [] && zone(name).alias.Some? {
      assert Linked(zones, asked, name, zone(name).alias.value);
      LinkMore(zones, asked, path, zone(name).alias.value);
      r := ScanExtends(zones, asked, path + [zone(name).alias.value], zone, k + 1);
    }
  }

  /** Names whose responses only lead to one another. */
  predicate Circling(zones: Zones, names: set<string>) {
    forall n | n in names :: Resolve(zones(n), n).Ended? && Resolve(zones(n), n).canonical != n && Resolve(zones(n), n).canonical in names
  }

  lemma {:induction false} CirclingFails(zones: Zones, names: set<string>, name: string, k: nat)
    requires Circling(zones, names) && name in names
    ensures Chase(zones, name, k) == Error
    decreases MAX - k
  {
    if k < MAX {
      CirclingFails(zones, names, Resolve(zones(name), name).canonical, k + 1);
    }
  }

  lemma {:induction false} FoundOwned(zones: Zones, asked: seq<string>, name: string)
    requires asked != [] && asked[|asked| - 1] == name && Resolve(zones(name), name).Found?
    ensures var o := Resolve(zones(name), name); OwnedBy(zones, asked, o.ips, o.owner)
  {
    var n := FoundIsFirst(zones(name).value, name, 0);
  }

  /** The responses to `seen` lead on, among themselves or to `name`. */
  predicate Wandering(zones: Zones, seen: set<string>, name: string) {
    forall n | n in seen ::
      Resolve(zones(n), n).Ended? && Resolve(zones(n), n).canonical != n && Resolve(zones(n), n).canonical in seen + {name}
  }

  lemma {:induction false} WanderOn(zones: Zones, seen: set<string>, name: string, next: string, k: nat)
    requires Wandering(zones, seen, name)
    ensures name in seen ==> Chase(zones, name, k) == Error
    ensures Resolve(zones(name), name) == Ended(next) && next != name ==> Wandering(zones, seen + {name}, next)
  {
    if name in seen {
      assert seen + {name} == seen;
      CirclingFails(zones, seen, name, k);
    }
  }

  /** The names asked so far, each once. */
  predicate Record(asked: seq<string>, seen: set<string>) {
    Distinct(asked) && |asked| <= MAX && (forall i | 0 <= i < |asked| :: asked[i] in seen)
  }

  /** One query: what it answers, and the path of links up to its last name. */
  method AskOne(query: Query, typ: RecordType, name: string, ghost zones: Zones, ghost asked: seq<string>, ghost path: seq<string>)
    returns (o: Outcome, ghost longer: seq<string>)
    requires (forall n {:trigger query(n)} :: zones(n) == ZoneIn(query(n), n, typ)) && LinkPath(zones, asked, path) && path[|path| - 1] == name
    ensures o == Resolve(zones(name), name)
    ensures !o.Failed? ==> LinkPath(zones, asked + [name], longer) && longer[0] == path[0] && longer[|longer| - 1] == EndOf(o)
    ensures o.Found? ==> OwnedBy(zones, asked + [name], o.ips, o.owner)
  {
    o := SplitDnsAnswers(query(name), name, typ);
    longer := path;
    AskedMore(zones, asked, name, path);
    if !o.Failed? {
      longer := ScanExtends(zones, asked + [name], path, zones(name).value, 0);
    }
    if o.Found? {
      FoundOwned(zones, asked + [name], name);
    }
  }

  /** No name is queried twice, at most sixteen queries are made, every address belongs
      to a name reachable by CNAMEs of validated responses, and the result is that of
      the plain chase. */
  method ChaseNames(start: string, typ: RecordType, query: Query, ghost zones: Zones) returns (r: Result, asked: seq<string>)
    requires forall n {:trigger query(n)} :: zones(n) == ZoneIn(query(n), n, typ)
    ensures r == Chase(zones, start, 0)
    ensures Distinct(asked) && |asked| <= MAX
    ensures r.Ok? && r.ips != [] ==> Justified(zones, asked, start, r.ips)
  {
    var name := start;
    var seen: set<string> := {};
    asked := [];
    ghost var path := [name];
    while |asked| < MAX
      invariant Record(asked, seen) && Wandering(zones, seen, name)
      invariant Chase(zones, start, 0) == Chase(zones, name, |asked|)
      invariant LinkPath(zones, asked, path) && path[0] == start && path[|path| - 1] == name
      decreases MAX - |asked|
    {
      if name in seen {
        WanderOn(zones, seen, name, name, |asked|);
        return Error, asked;
      }
      var o;
      o, path := AskOne(query, typ, name, zones, asked, path);
      ghost var before := seen;
      seen := seen + {name};
      asked := asked + [name];
      if o.Failed? {
        return Error, asked;
      }
      if o.Found? {
        return Ok(o.ips), asked;
      }
      if o.canonical == name {
        return Ok([]), asked;
      }
      WanderOn(zones, before, name, o.canonical, 0);
      name := o.canonical;
    }
    r := Error;
  }

  function Asked(host: string): string { Lower(StripDot(host)) + "." }

  method LookupRecord(host: string, typ: RecordType, query: Query) returns (r: Result, asked: seq<string>)
    ensures r == Chase(ZonesOf(query, typ), Asked(host), 0)
    ensures Distinct(asked) && |asked| <= 16
    ensures r.Ok? && r.ips != [] ==> Justified(ZonesOf(query, typ), asked, Asked(host), r.ips)
    ensures r.Ok? && r.ips != [] ==> Grounded(query, typ, asked, Asked(host), r.ips)
  {
    r, asked := ChaseNames(Asked(host), typ, query, ZonesOf(query, typ));
    if r.Ok? && r.ips != [] {
      JustifiedIsGrounded(query, typ, asked, Asked(host), r.ips);
    }
  }

  /** A chain of at most fifteen links in the first response whose last name has
      addresses yields the addresses of the first name on it that has any. */
  lemma {:induction false} ChainYieldsFirst(zones: Zones, start: string, zone: Zone, last: nat) returns (n: nat)
    requires zones(start) == Some(zone) && last <= 15
    requires Hop(zone, start, last).Some? && zone(Hop(zone, start, last).value).ips != []
    ensures n <= last && FirstOwner(zone, start, n)
    ensures Chase(zones, start, 0) == Ok(zone(Hop(zone, start, n).value).ips)
  {
    n := FirstExists(zone, start, last);
    ScanFindsFirst(zone, start, 0, n);
  }

  /** The name that is asked for is absolute and in lower case, and the same for every
      spelling of the host. */
  lemma {:induction false} AskedIsAbsolute(host: string)
    ensures var name := Asked(host);
            && name != "" && name[|name| - 1] == '.' && Lower(name) == name
            && (host == "" || host[|host| - 1] != '.' ==> name == Lower(host) + "." && Asked(host + ".") == name)
  {
    assert (host + ".")[..|host|] == host;
    assert Lower(Asked(host)) == Asked(host);
  }

  // ---------- the records themselves ----------

  /** The response answers the one question that was asked: this name, without regard to
      case, this type and class INET, with no error and nothing cut off. */
  ghost predicate Answers(reply: Reply, name: string, typ: RecordType) {
    exists asked: string, answers: seq<Answer> ::
      reply == Decoded(Message(true, false, true, [Question(asked, Some(typ), true)], answers)) && Lower(asked) == Lower(name)
  }

  /** What sixteen bytes that hold an IPv4 address begin with. */
  const MAPPED: seq<nat> := [0, 0, 0, 0, 0, 0, 0, 0, 0, 0, 255, 255]

  /** An address record of `name`, of the type asked for. */
  predicate Bears(a: Answer, name: string, typ: RecordType, ip: Address) {
    && a.inet && Lower(a.owner) == name
    && match a.body
       case AddressA(bytes) => typ == A && ip == bytes
       case AddressAAAA(bytes) => typ == AAAA && (if |bytes| == 16 && MAPPED <= bytes then bytes == MAPPED + ip else bytes == ip)
       case CName(_) => false
       case OtherBody => false
  }

  predicate Redirects(a: Answer, name: string, target: string) {
    a.inet && Lower(a.owner) == name && a.body.CName? && Lower(a.body.target) == target
  }

  lemma {:induction false} ValidatedIff(reply: Reply, name: string, typ: RecordType)
    ensures Validated(reply, name, typ) <==> Answers(reply, name, typ)
    ensures ZoneIn(reply, name, typ).Some? <==> Answers(reply, name, typ)
  {
    if Validated(reply, name, typ) {
      var m := reply.message;
      assert m.questions == [m.questions[0]];
      assert reply == Decoded(Message(true, false, true, [Question(m.questions[0].name, Some(typ), true)], m.answers));
    }
  }

  lemma {:induction false} UnmappedIs(bytes: seq<nat>, ip: Address)
    ensures Unmapped(bytes) == ip <==> if |bytes| == 16 && MAPPED <= bytes then bytes == MAPPED + ip else bytes == ip
  {
    if |bytes| == 16 && MAPPED <= bytes {
      assert bytes == MAPPED + bytes[12..];
      assert (MAPPED + ip)[12..] == ip;
      assert forall i | 0 <= i < 12 :: bytes[i] == MAPPED[i];
    }
  }

  lemma {:induction false} OneAddress(a: Answer, name: string, typ: RecordType, ip: Address)
    ensures AddressIn(a, Lower(a.owner), name, typ) == [ip] <==> Bears(a, name, typ, ip)
    ensures |AddressIn(a, Lower(a.owner), name, typ)| <= 1
  {
    if a.body.AddressAAAA? {
      UnmappedIs(a.body.bytes, ip);
    }
  }

  /** The addresses of a name are those its address records bear, in the records' order. */
  lemma {:induction false} AddressesAre(answers: seq<Answer>, name: string, typ: RecordType) returns (from: seq<nat>)
    ensures |from| == |AddressesOf(answers, name, typ)|
    ensures forall j | 0 <= j < |from| :: from[j] < |answers| && Bears(answers[from[j]], name, typ, AddressesOf(answers, name, typ)[j])
    ensures forall i, j | 0 <= i < j < |from| :: from[i] < from[j]
    ensures forall i, ip: Address | 0 <= i < |answers| && Bears(answers[i], name, typ, ip) :: i in from
  {
    if answers == [] {
      from := [];
    } else {
      var n := |answers| - 1;
      from := AddressesAre(answers[..n], name, typ);
      var more := AddressIn(answers[n], Lower(answers[n].owner), name, typ);
      if more != [] {
        OneAddress(answers[n], name, typ, more[0]);
        assert more == [more[0]];
        from := from + [n];
      }
      forall ip: Address | Bears(answers[n], name, typ, ip) ensures n in from {
        OneAddress(answers[n], name, typ, ip);
        assert more == [ip];
      }
    }
  }

  /** Record `i` is the last CNAME record of the name. */
  predicate LastRedirect(answers: seq<Answer>, name: string, i: nat) {
    && i < |answers| && answers[i].body.CName? && Redirects(answers[i], name, Lower(answers[i].body.target))
    && forall j | i < j < |answers| && answers[j].body.CName? :: !Redirects(answers[j], name, Lower(answers[j].body.target))
  }

  /** The alias of a name is the target of its last CNAME record. */
  lemma {:induction false} AliasIff(answers: seq<Answer>, name: string, target: string)
    ensures AliasOf(answers, name) == Some(target) <==>
              exists i :: 0 <= i < |answers| && LastRedirect(answers, name, i) && Redirects(answers[i], name, target)
  {
    if answers != [] {
      var n := |answers| - 1;
      var front := answers[..n];
      AliasIff(front, name, target);
      if AliasIn(answers[n], Lower(answers[n].owner), name).Some? {
        assert LastRedirect(answers, name, n);
      } else {
        forall i | 0 <= i < n ensures LastRedirect(answers, name, i) <==> LastRedirect(front, name, i) {
          assert answers[i] == front[i];
          assert LastRedirect(front, name, i) ==> forall j | i < j < n :: answers[j] == front[j];
        }
      }
    }
  }

  /** A response to one of the queries has a CNAME record from `a` to `b`. */
  ghost predicate Leads(query: Query, typ: RecordType, asked: seq<string>, a: string, b: string) {
    exists i, k :: 0 <= i < |asked| && Answers(query(asked[i]), asked[i], typ)
                   && 0 <= k < |query(asked[i]).message.answers| && Redirects(query(asked[i]).message.answers[k], a, b)
  }

  /** A response to one of the queries has a record of `owner` that bears this address. */
  ghost predicate Holds(query: Query, typ: RecordType, asked: seq<string>, owner: string, ip: Address) {
    exists i, k :: 0 <= i < |asked| && Answers(query(asked[i]), asked[i], typ)
                   && 0 <= k < |query(asked[i]).message.answers| && Bears(query(asked[i]).message.answers[k], owner, typ, ip)
  }

  /** CNAME records lead from the start to a name whose records bear the addresses. */
  ghost predicate Grounded(query: Query, typ: RecordType, asked: seq<string>, start: string, ips: seq<Address>) {
    exists path: seq<string> ::
      && |path| > 0 && path[0] == start
      && (forall i | 0 <= i < |path| - 1 :: Leads(query, typ, asked, path[i], path[i + 1]))
      && forall ip | ip in ips :: Holds(query, typ, asked, path[|path| - 1], ip)
  }

  lemma {:induction false} LinkedLeads(query: Query, typ: RecordType, asked: seq<string>, a: string, b: string)
    requires Linked(ZonesOf(query, typ), asked, a, b)
    ensures Leads(query, typ, asked, a, b)
  {
    var zones := ZonesOf(query, typ);
    var i :| 0 <= i < |asked| && zones(asked[i]).Some? && zones(asked[i]).value(a).alias == Some(b);
    ValidatedIff(query(asked[i]), asked[i], typ);
    AliasIff(query(asked[i]).message.answers, a, b);
  }

  lemma {:induction false} OwnedHolds(query: Query, typ: RecordType, asked: seq<string>, ips: seq<Address>, owner: string, ip: Address)
    requires OwnedBy(ZonesOf(query, typ), asked, ips, owner) && ip in ips
    ensures Holds(query, typ, asked, owner, ip)
  {
    var zones := ZonesOf(query, typ);
    var i :| 0 <= i < |asked| && zones(asked[i]).Some? && zones(asked[i]).value(owner).ips == ips;
    ValidatedIff(query(asked[i]), asked[i], typ);
    var answers := query(asked[i]).message.answers;
    var from := AddressesAre(answers, owner, typ);
    var j :| 0 <= j < |ips| && ips[j] == ip;
    assert Bears(answers[from[j]], owner, typ, ip);
  }

  lemma {:induction false} JustifiedIsGrounded(query: Query, typ: RecordType, asked: seq<string>, start: string, ips: seq<Address>)
    requires Justified(ZonesOf(query, typ), asked, start, ips)
    ensures Grounded(query, typ, asked, start, ips)
  {
    var zones := ZonesOf(query, typ);
    var path :| LinkPath(zones, asked, path) && path[0] == start && OwnedBy(zones, asked, ips, path[|path| - 1]);
    forall i | 0 <= i < |path| - 1 ensures Leads(query, typ, asked, path[i], path[i + 1]) {
      LinkedLeads(query, typ, asked, path[i], path[i + 1]);
    }
    forall ip | ip in ips ensures Holds(query, typ, asked, path[|path| - 1], ip) {
      OwnedHolds(query, typ, asked, ips, path[|path| - 1], ip);
    }
  }

  // ---------- exactly what a lookup finds ----------

  /** The chain of one response ends `n` links down, without any addresses on it. */
  predicate ChainEnds(zone: Zone, name: string, n: nat) {
    && Hop(zone, name, n).Some? && zone(Hop(zone, name, n).value).alias.None?
    && forall k | 0 <= k <= n :: Hop(zone, name, k).Some? && zone(Hop(zone, name, k).value).ips == []
  }

  lemma {:induction false} EndBehind(zone: Zone, name: string, n: nat)
    requires zone(name).ips == [] && zone(name).alias.Some?
    ensures ChainEnds(zone, name, n + 1) <==> ChainEnds(zone, zone(name).alias.value, n)
  {
    var next := zone(name).alias.value;
    HopNext(zone, name, n + 1);
    if ChainEnds(zone, name, n + 1) {
      forall j | 0 <= j <= n ensures Hop(zone, next, j).Some? && zone(Hop(zone, next, j).value).ips == [] {
        HopNext(zone, name, j + 1);
      }
    }
    if ChainEnds(zone, next, n) {
      forall j | 0 <= j <= n + 1 ensures Hop(zone, name, j).Some? && zone(Hop(zone, name, j).value).ips == [] {
        if j > 0 {
          HopNext(zone, name, j);
        }
      }
    }
  }

  lemma {:induction false} ScanReachesEnd(zone: Zone, name: string, k: nat, n: nat)
    requires ChainEnds(zone, name, n) && k + n < 16
    ensures Scan(zone, name, k) == Ended(Hop(zone, name, n).value)
    decreases n
  {
    assert Hop(zone, name, 0) == Some(name);
    if n > 0 {
      assert zone(name).alias.Some?;
      EndBehind(zone, name, n - 1);
      HopNext(zone, name, n);
      ScanReachesEnd(zone, zone(name).alias.value, k + 1, n - 1);
    }
  }

  lemma {:induction false} EndIsReached(zone: Zone, name: string, k: nat) returns (n: nat)
    requires Scan(zone, name, k).Ended?
    ensures k + n < 16 && ChainEnds(zone, name, n) && Scan(zone, name, k) == Ended(Hop(zone, name, n).value)
    decreases MAX - k
  {
    assert Hop(zone, name, 0) == Some(name);
    if zone(name).alias.None? {
      n := 0;
    } else {
      n := EndIsReached(zone, zone(name).alias.value, k + 1);
      EndBehind(zone, name, n);
      HopNext(zone, name, n + 1);
      n := n + 1;
    }
  }

  /** Following one response: addresses are found if and only if one of the first sixteen
      names of the chain has some, those of the first such name. */
  lemma {:induction false} FoundIff(zone: Zone, name: string, ips: seq<Address>, owner: string)
    ensures Resolve(Some(zone), name) == Found(ips, owner) <==>
              exists n :: 0 <= n < 16 && FirstOwner(zone, name, n) && Hop(zone, name, n) == Some(owner) && zone(owner).ips == ips
  {
    if Resolve(Some(zone), name) == Found(ips, owner) {
      var n := FoundIsFirst(zone, name, 0);
    }
    if n :| 0 <= n < 16 && FirstOwner(zone, name, n) && Hop(zone, name, n) == Some(owner) && zone(owner).ips == ips {
      ScanFindsFirst(zone, name, 0, n);
    }
  }

  /** The walk ends without any if and only if the chain ends within sixteen names, none
      of which has addresses. */
  lemma {:induction false} EndedIff(zone: Zone, name: string, last: string)
    ensures Resolve(Some(zone), name) == Ended(last) <==>
              exists n :: 0 <= n < 16 && ChainEnds(zone, name, n) && Hop(zone, name, n) == Some(last)
  {
    if Resolve(Some(zone), name) == Ended(last) {
      var n := EndIsReached(zone, name, 0);
    }
    if n :| 0 <= n < 16 && ChainEnds(zone, name, n) && Hop(zone, name, n) == Some(last) {
      ScanReachesEnd(zone, name, 0, n);
    }
  }

  /** The name of the query `n` after the first: each response led to another name. */
  function Queried(zones: Zones, name: string, n: nat): Option<string>
    decreases n
  {
    if n == 0 then Some(name)
    else
      match Resolve(zones(name), name)
      case Ended(next) => if next == name then None else Queried(zones, next, n - 1)
      case Failed => None
      case Found(_, _) => None
  }

  /** What the response about one name settles. */
  predicate Settles(zones: Zones, name: string, ips: seq<Address>) {
    match Resolve(zones(name), name)
    case Found(found, _) => ips == found
    case Ended(last) => ips == [] && last == name
    case Failed => false
  }

  lemma {:induction false} ChaseSettles(zones: Zones, name: string, k: nat, n: nat, ips: seq<Address>)
    requires k + n < 16 && Queried(zones, name, n).Some? && Settles(zones, Queried(zones, name, n).value, ips)
    ensures Chase(zones, name, k) == Ok(ips)
    decreases n
  {
    if n > 0 {
      ChaseSettles(zones, Resolve(zones(name), name).canonical, k + 1, n - 1, ips);
    }
  }

  lemma {:induction false} ChaseWasSettled(zones: Zones, name: string, k: nat) returns (n: nat)
    requires Chase(zones, name, k).Ok?
    ensures k + n < 16 && Queried(zones, name, n).Some? && Settles(zones, Queried(zones, name, n).value, Chase(zones, name, k).ips)
    decreases MAX - k
  {
    n := 0;
    var o := Resolve(zones(name), name);
    if o.Ended? && o.canonical != name {
      n := ChaseWasSettled(zones, o.canonical, k + 1);
      assert Queried(zones, name, n + 1) == Queried(zones, o.canonical, n);
      n := n + 1;
    }
  }

  /** A lookup gives these addresses if and only if one of the first sixteen queries
      settles on them, and an error in every other case. */
  lemma {:induction false} ChaseIff(zones: Zones, name: string, ips: seq<Address>)
    ensures Chase(zones, name, 0) == Ok(ips) <==>
              exists n :: 0 <= n < 16 && Queried(zones, name, n).Some? && Settles(zones, Queried(zones, name, n).value, ips)
  {
    if Chase(zones, name, 0) == Ok(ips) {
      var n := ChaseWasSettled(zones, name, 0);
    }
    if n :| 0 <= n < 16 && Queried(zones, name, n).Some? && Settles(zones, Queried(zones, name, n).value, ips) {
      ChaseSettles(zones, name, 0, n, ips);
    }
  }
}
