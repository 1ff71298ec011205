/** Subnet routes: what the browser accepts as text and what the helper accepts as a
    parsed prefix, for both address families. */
module Subnets {
  import opened Text
  import opened Prefixes
  import Ipv6Text

  /** IPv4 addresses are four words of eight bits, IPv6 addresses eight of sixteen. */
  datatype Address = V4(octets: seq<nat>) | V6(words: seq<nat>) {
    predicate Valid() {
      match this
      case V4(octets) => |octets| == 4 && Words(octets, 8)
      case V6(words) => |words| == 8 && Words(words, 16)
    }
  }

  datatype Prefix = Prefix(address: Address, bits: nat) {
    predicate Valid() {
      address.Valid() && bits <= (if address.V4? then 32 else 128)
    }
  }

  lemma {:induction false} OctetSize()
    ensures Pow2(8) == 256
  {
    Pow2Add(4, 4);
    assert Pow2(4) == 16;
  }

  // ---------- IPv4 text ----------

  function DigitPrefix(s: string): (d: string)
    ensures AllDigits(d) && |d| <= |s| && d == s[..|d|]
    ensures AllDigits(s) ==> d == s
  {
    if s == "" || !IsDigit(s[0]) then ""
    else
      assert AllDigits(s) ==> AllDigits(s[1..]);
      [s[0]] + DigitPrefix(s[1..])
  }

  function SignedInt(s: string): Option<int> {
    var signed := |s| > 0 && (s[0] == '-' || s[0] == '+');
    var digits := DigitPrefix(if signed then s[1..] else s);
    if digits == "" then None
    else
      var value: int := DecimalValue(digits);
      Some(if signed && s[0] == '-' then -value else value)
  }

  /** `parseInt(s, 10)`; `None` is NaN. */
  function ParseInt(s: string): Option<int> { SignedInt(TrimLeft(s)) }

  predicate OctetInt(part: string) {
    ParseInt(part).Some? && 0 <= ParseInt(part).value <= 255
  }

  lemma {:induction false} FourOctetsValid(a: nat, b: nat, c: nat, d: nat)
    requires a <= 255 && b <= 255 && c <= 255 && d <= 255
    ensures V4([a, b, c, d]).Valid()
  {
    OctetSize();
  }

  function OctetOf(part: string): (n: nat)
    requires OctetInt(part)
    ensures n <= 255
  {
    ParseInt(part).value
  }

  function Octets(parts: seq<string>): (r: Option<seq<nat>>)
    ensures r.Some? ==> V4(r.value).Valid()
  {
    if |parts| != 4 || !OctetInt(parts[0]) || !OctetInt(parts[1]) || !OctetInt(parts[2]) || !OctetInt(parts[3]) then None
    else
      var a, b, c, d := OctetOf(parts[0]), OctetOf(parts[1]), OctetOf(parts[2]), OctetOf(parts[3]);
      FourOctetsValid(a, b, c, d);
      Some([a, b, c, d])
  }

  /** `ipToNum`: the four octets of the number, or nothing. */
  function IpToNum(ip: string): (r: Option<seq<nat>>)
    ensures r.Some? ==> V4(r.value).Valid()
  {
    Octets(Split(ip, '.'))
  }

  predicate ShortDigits(part: string) { 1 <= |part| <= 3 && AllDigits(part) }

  /** `/^\d{1,3}(?:\.\d{1,3}){3}$/`. */
  predicate DottedDigits(s: string) {
    var parts := Split(s, '.');
    |parts| == 4 && ShortDigits(parts[0]) && ShortDigits(parts[1]) && ShortDigits(parts[2]) && ShortDigits(parts[3])
  }

  function OctetText(octets: seq<nat>): string
    requires |octets| == 4
  {
    Join([Decimal(octets[0]), Decimal(octets[1]), Decimal(octets[2]), Decimal(octets[3])], '.')
  }

  /** `parseCIDR`: the network, its text and the length of its mask. */
  datatype Range = Range(text: string, octets: seq<nat>, bits: nat) {
    predicate Valid() { V4(octets).Valid() && bits <= 32 }
  }

  function ParseCidr(cidr: string): (r: Option<Range>)
    ensures r.Some? ==> r.value.Valid()
  {
    var parts := Split(cidr, '/');
    if |parts| != 2 || !DottedDigits(parts[0]) then None
    else
      var bits := ParseInt(parts[1]);
      if bits.None? || bits.value < 0 || bits.value > 32 || IpToNum(parts[0]).None? then None
      else Some(Range(parts[0], IpToNum(parts[0]).value, bits.value))
  }

  /** `x & mask` for the mask of a prefix length: the bits below it are cleared. */
  function AndMask(octets: seq<nat>, bits: nat): nat
    requires |octets| == 4 && bits <= 32
  {
    Top(Value(octets, 8), 32, bits) * Pow2(32 - bits)
  }

  /** Comparing two masked numbers compares their top bits. */
  lemma {:induction false} AndMaskEqual(a: seq<nat>, b: seq<nat>, bits: nat)
    requires |a| == |b| == 4 && bits <= 32
    ensures AndMask(a, bits) == AndMask(b, bits) <==> SamePrefix(a, b, 8, bits)
  {
    var d, p, q := Pow2(32 - bits), Top(Value(a, 8), 32, bits), Top(Value(b, 8), 32, bits);
    QuotIs(p * d, d, p);
    QuotIs(q * d, d, q);
  }

  // ---------- what neither side lets a route reach ----------

  const FORBIDDEN_V4: seq<Prefix> := [
    Prefix(V4([0, 0, 0, 0]), 8), Prefix(V4([127, 0, 0, 0]), 8), Prefix(V4([169, 254, 0, 0]), 16),
    Prefix(V4([224, 0, 0, 0]), 4), Prefix(V4([240, 0, 0, 0]), 4)]

  const FORBIDDEN_V6: seq<Prefix> := [
    Prefix(V6([0, 0, 0, 0, 0, 0, 0, 0]), 128), Prefix(V6([0, 0, 0, 0, 0, 0, 0, 1]), 128),
    Prefix(V6([0xfe80, 0, 0, 0, 0, 0, 0, 0]), 10), Prefix(V6([0xff00, 0, 0, 0, 0, 0, 0, 0]), 8)]

  lemma {:induction false} ForbiddenValid()
    ensures forall i | 0 <= i < |FORBIDDEN_V4| :: FORBIDDEN_V4[i].address.V4? && FORBIDDEN_V4[i].Valid()
    ensures forall i | 0 <= i < |FORBIDDEN_V6| :: FORBIDDEN_V6[i].address.V6? && FORBIDDEN_V6[i].Valid()
  {
    OctetSize();
    Ipv6Text.WordSize();
  }

  predicate Mapped(words: seq<nat>)
    requires |words| == 8
  {
    words[..5] == [0, 0, 0, 0, 0] && words[5] == 0xffff
  }

  function Min(a: nat, b: nat): nat { if a < b then a else b }

  // ---------- the browser ----------

  datatype SubnetRecord = SubnetRecord(network: seq<nat>, prefixLength: nat) {
    predicate Valid() { |network| == 8 && Words(network, 16) && 1 <= prefixLength <= 128 }
  }

  type Subnet = s: SubnetRecord | s.Valid() witness SubnetRecord([0, 0, 0, 0, 0, 0, 0, 0], 1)

  /** The two halves of an IPv6 CIDR text, before any policy. */
  function Cidr6(cidr: string): (r: Option<Prefix>)
    ensures r.Some? ==> r.value.address.V6? && r.value.Valid()
    ensures r.Some? ==> ':' in cidr
  {
    var parts := Split(cidr, '/');
    if |parts| != 2 || '[' in parts[0] || ']' in parts[0] then None
    else if !CanonicalDecimal(parts[1]) || DecimalValue(parts[1]) > 128 then None
    else
      match Ipv6Text.Parse(parts[0])
      case None => None
      case Some(words) => Some(Prefix(V6(words), DecimalValue(parts[1])))
  }

  predicate ForbiddenV6(words: seq<nat>, bits: nat)
    requires |words| == 8 && bits <= 128
  {
    exists i :: 0 <= i < |FORBIDDEN_V6| && HitsV6(words, bits, i)
  }

  predicate HitsV6(words: seq<nat>, bits: nat, i: nat)
    requires |words| == 8 && bits <= 128 && i < |FORBIDDEN_V6|
  {
    SamePrefix(words, FORBIDDEN_V6[i].address.words, 16, Min(bits, FORBIDDEN_V6[i].bits))
  }

  /** `parseIPv6CIDR`: an accepted route with its network masked. */
  function ParseIpv6Cidr(cidr: string): (r: Option<Subnet>)
    ensures r.Some? ==> ':' in cidr
  {
    match Cidr6(cidr)
    case None => None
    case Some(p) =>
      if p.bits < 1 || Mapped(p.address.words) || ForbiddenV6(p.address.words, p.bits) then None
      else
        MaskedWords(p.address.words, p.bits);
        Some(SubnetRecord(Masked(p.address.words, p.bits), p.bits))
  }

  predicate InSubnet(words: seq<nat>, subnet: Subnet)
    requires |words| == 8
  {
    SamePrefix(words, subnet.network, 16, subnet.prefixLength)
  }

  predicate InSubnets(words: seq<nat>, subnets: seq<Subnet>)
    requires |words| == 8
  {
    exists i :: 0 <= i < |subnets| && InSubnet(words, subnets[i])
  }

  /** `matches`: a literal that is not IPv4-mapped and lies in one of the subnets. */
  predicate MatchesIpv6(host: string, subnets: seq<Subnet>)
  {
    var address := Ipv6Text.Parse(host);
    address.Some? && !Mapped(address.value) && InSubnets(address.value, subnets)
  }

  /** The matching loop, on the loop-based prefix test. */
  method MatchWords(words: seq<nat>, subnets: seq<Subnet>) returns (found: bool)
    requires |words| == 8 && Words(words, 16)
    ensures found <==> InSubnets(words, subnets)
  {
    for i := 0 to |subnets|
      invariant forall j | 0 <= j < i :: !InSubnet(words, subnets[j])
    {
      var same := PrefixMatches(words, subnets[i].network, subnets[i].prefixLength);
      if same {
        return true;
      }
    }
    return false;
  }

  method MatchHost(host: string, subnets: seq<Subnet>) returns (found: bool)
    ensures found <==> MatchesIpv6(host, subnets)
  {
    var address := Ipv6Text.ParseAddress(host);
    if address.None? || Mapped(address.value) {
      return false;
    }
    found := MatchWords(address.value, subnets);
  }

  predicate HitsRange(words: seq<nat>, bits: nat, range: Prefix)
    requires |words| == 8 && bits <= 128 && range.address.V6? && range.Valid()
  {
    SamePrefix(words, range.address.words, 16, Min(bits, range.bits))
  }

  /** The loop over the forbidden ranges. */
  method FindRange(words: seq<nat>, bits: nat, ranges: seq<Prefix>) returns (hit: bool)
    requires |words| == 8 && Words(words, 16) && bits <= 128
    requires forall i | 0 <= i < |ranges| :: ranges[i].address.V6? && ranges[i].Valid()
    ensures hit <==> exists i :: 0 <= i < |ranges| && HitsRange(words, bits, ranges[i])
  {
    for i := 0 to |ranges|
      invariant forall j | 0 <= j < i :: !HitsRange(words, bits, ranges[j])
    {
      var same := PrefixMatches(words, ranges[i].address.words, Min(bits, ranges[i].bits));
      if same {
        assert HitsRange(words, bits, ranges[i]);
        return true;
      }
    }
    return false;
  }

  method FindForbidden(words: seq<nat>, bits: nat) returns (hit: bool)
    requires |words| == 8 && Words(words, 16) && bits <= 128
    ensures hit <==> ForbiddenV6(words, bits)
  {
    ForbiddenValid();
    hit := FindRange(words, bits, FORBIDDEN_V6);
    assert forall i | 0 <= i < |FORBIDDEN_V6| :: HitsV6(words, bits, i) == HitsRange(words, bits, FORBIDDEN_V6[i]);
  }

  /** The parsing of an IPv6 route, with its in-place mask. */
  method ReadIpv6Cidr(cidr: string) returns (result: Option<Subnet>)
    ensures result == ParseIpv6Cidr(cidr)
  {
    var parsed := Cidr6(cidr);
    if parsed.None? || parsed.value.bits < 1 || Mapped(parsed.value.address.words) {
      return None;
    }
    var words, bits := parsed.value.address.words, parsed.value.bits;
    var hit := FindForbidden(words, bits);
    if hit {
      return None;
    }
    var network := new nat[8](i requires 0 <= i < 8 => words[i]);
    assert network[..] == words;
    MaskNetwork(network, bits);
    return Some(SubnetRecord(network[..], bits));
  }

  predicate HitsV4(octets: seq<nat>, bits: nat, i: nat)
    requires |octets| == 4 && bits <= 32 && i < |FORBIDDEN_V4|
  {
    var common := Min(bits, FORBIDDEN_V4[i].bits);
    AndMask(octets, common) == AndMask(FORBIDDEN_V4[i].address.octets, common)
  }

  /** `isSupportedSubnetCIDR`. */
  predicate IsSupportedSubnet(cidr: string) {
    if ':' in cidr then ParseIpv6Cidr(cidr).Some?
    else
      match ParseCidr(cidr)
      case None => false
      case Some(range) =>
        var parts := Split(cidr, '/');
        && OctetText(range.octets) == parts[0]
        && CanonicalDecimal(parts[1]) && 1 <= DecimalValue(parts[1]) <= 32
        && !exists i :: 0 <= i < |FORBIDDEN_V4| && HitsV4(range.octets, range.bits, i)
  }

  // ---------- the helper ----------

  predicate Contains(p: Prefix, a: Address)
    requires p.Valid() && a.Valid()
  {
    match (p.address, a)
    case (V4(n), V4(x)) => SamePrefix(x, n, 8, p.bits)
    case (V6(n), V6(x)) => SamePrefix(x, n, 16, p.bits)
    case _ => false
  }

  predicate Overlaps(p: Prefix, q: Prefix)
    requires p.Valid() && q.Valid()
  {
    match (p.address, q.address)
    case (V4(a), V4(b)) => SamePrefix(a, b, 8, Min(p.bits, q.bits))
    case (V6(a), V6(b)) => SamePrefix(a, b, 16, Min(p.bits, q.bits))
    case _ => false
  }

  predicate Is4In6(a: Address)
    requires a.Valid()
  {
    a.V6? && Mapped(a.words)
  }

  /** The IPv4 address inside an IPv4-mapped one (section 2.5.5.2 of RFC 4291). */
  function Unmap(a: Address): (r: Address)
    requires a.Valid()
    ensures r.Valid() && !Is4In6(r)
  {
    if Is4In6(a) then
      OctetSize();
      Ipv6Text.WordSize();
      V4([a.words[6] / 256, a.words[6] % 256, a.words[7] / 256, a.words[7] % 256])
    else a
  }

  const FORBIDDEN: seq<Prefix> := FORBIDDEN_V4 + FORBIDDEN_V6

  lemma {:induction false} AllForbiddenValid()
    ensures forall i | 0 <= i < |FORBIDDEN| :: FORBIDDEN[i].Valid()
  {
    ForbiddenValid();
  }

  predicate SafeProxyIp(a: Address)
    requires a.Valid()
  {
    AllForbiddenValid();
    forall i | 0 <= i < |FORBIDDEN| :: !Contains(FORBIDDEN[i], Unmap(a))
  }

  predicate SafeProxyRoute(p: Prefix)
    requires p.Valid()
  {
    AllForbiddenValid();
    p.bits != 0 && !Is4In6(p.address) && forall i | 0 <= i < |FORBIDDEN| :: !Overlaps(p, FORBIDDEN[i])
  }

  // ---------- agreement ----------

  /** Strict prefix text, as the helper's address library reads it. */
  function Cidr4(cidr: string): (r: Option<Prefix>)
    ensures r.Some? ==> r.value.address.V4? && r.value.Valid()
  {
    var parts := Split(cidr, '/');
    if |parts| != 2 || !CanonicalDecimal(parts[1]) || DecimalValue(parts[1]) > 32 then None
    else
      var octets := Split(parts[0], '.');
      if !Ipv6Text.FourOctets(octets) then None
      else Some(Prefix(V4(QuadValues(octets)), DecimalValue(parts[1])))
  }

  function StrictPrefix(cidr: string): (r: Option<Prefix>)
    ensures r.Some? ==> r.value.Valid()
  {
    if ':' in cidr then Cidr6(cidr) else Cidr4(cidr)
  }

  lemma {:induction false} ParseIntDigits(s: string)
    requires AllDigits(s) && s != ""
    ensures ParseInt(s) == Some(DecimalValue(s))
  {
    assert IsDigit(s[0]);
  }

  function QuadValues(octets: seq<string>): (v: seq<nat>)
    requires Ipv6Text.FourOctets(octets)
    ensures V4(v).Valid()
  {
    OctetSize();
    [DecimalValue(octets[0]), DecimalValue(octets[1]), DecimalValue(octets[2]), DecimalValue(octets[3])]
  }

  lemma {:induction false} StrictOctet(t: string)
    requires Ipv6Text.Octet(t)
    ensures ShortDigits(t) && OctetInt(t) && ParseInt(t).value == DecimalValue(t) && Decimal(DecimalValue(t)) == t
  {
    ParseIntDigits(t);
    DecimalUnique(t);
  }

  /** A strict dotted quad is read the same way by both sides ... */
  lemma {:induction false} StrictQuad(text: string)
    requires Ipv6Text.FourOctets(Split(text, '.'))
    ensures DottedDigits(text) && IpToNum(text) == Some(QuadValues(Split(text, '.')))
    ensures OctetText(QuadValues(Split(text, '.'))) == text
  {
    var octets := Split(text, '.');
    StrictOctet(octets[0]);
    StrictOctet(octets[1]);
    StrictOctet(octets[2]);
    StrictOctet(octets[3]);
    assert octets == [octets[0], octets[1], octets[2], octets[3]];
  }

  lemma {:induction false} StrictIpv4Read(cidr: string)
    requires Cidr4(cidr).Some?
    ensures var p := Cidr4(cidr).value;
            && ParseCidr(cidr) == Some(Range(Split(cidr, '/')[0], p.address.octets, p.bits))
            && OctetText(p.address.octets) == Split(cidr, '/')[0]
            && CanonicalDecimal(Split(cidr, '/')[1]) && DecimalValue(Split(cidr, '/')[1]) == p.bits
  {
    var parts := Split(cidr, '/');
    ParseIntDigits(parts[1]);
    StrictQuad(parts[0]);
  }

  /** ... and an address text that prints back to itself is strict. */
  lemma {:induction false} PrintedIsStrict(text: string, octets: seq<nat>)
    requires V4(octets).Valid() && OctetText(octets) == text
    ensures Ipv6Text.FourOctets(Split(text, '.'))
  {
    OctetSize();
    var texts := [Decimal(octets[0]), Decimal(octets[1]), Decimal(octets[2]), Decimal(octets[3])];
    assert forall t | t in texts :: '.' !in t;
    SplitJoin(texts, '.');
  }

  lemma {:induction false} Ipv4HitsOverlap(octets: seq<nat>, bits: nat)
    requires V4(octets).Valid() && bits <= 32
    ensures (exists i :: 0 <= i < |FORBIDDEN_V4| && HitsV4(octets, bits, i))
            <==> exists i :: 0 <= i < |FORBIDDEN_V4| && FORBIDDEN_V4[i].Valid() && Overlaps(Prefix(V4(octets), bits), FORBIDDEN_V4[i])
  {
    ForbiddenValid();
    forall i | 0 <= i < |FORBIDDEN_V4|
      ensures HitsV4(octets, bits, i) <==> Overlaps(Prefix(V4(octets), bits), FORBIDDEN_V4[i])
    {
      AndMaskEqual(octets, FORBIDDEN_V4[i].address.octets, Min(bits, FORBIDDEN_V4[i].bits));
    }
  }

  lemma {:induction false} SafeRouteV4(octets: seq<nat>, bits: nat)
    requires V4(octets).Valid() && bits <= 32
    ensures SafeProxyRoute(Prefix(V4(octets), bits))
            <==> bits != 0 && !exists i :: 0 <= i < |FORBIDDEN_V4| && HitsV4(octets, bits, i)
  {
    var p := Prefix(V4(octets), bits);
    ForbiddenValid();
    AllForbiddenValid();
    Ipv4HitsOverlap(octets, bits);
    assert forall i | 0 <= i < |FORBIDDEN_V4| :: FORBIDDEN[i] == FORBIDDEN_V4[i];
    assert forall i | |FORBIDDEN_V4| <= i < |FORBIDDEN| :: FORBIDDEN[i] == FORBIDDEN_V6[i - |FORBIDDEN_V4|];
  }

  lemma {:induction false} SafeRouteV6(words: seq<nat>, bits: nat)
    requires V6(words).Valid() && bits <= 128
    ensures SafeProxyRoute(Prefix(V6(words), bits))
            <==> bits != 0 && !Mapped(words) && !ForbiddenV6(words, bits)
  {
    var p := Prefix(V6(words), bits);
    ForbiddenValid();
    AllForbiddenValid();
    assert forall i | 0 <= i < |FORBIDDEN_V4| :: FORBIDDEN[i] == FORBIDDEN_V4[i];
    assert forall i | 0 <= i < |FORBIDDEN_V6| :: FORBIDDEN[|FORBIDDEN_V4| + i] == FORBIDDEN_V6[i];
    forall i | 0 <= i < |FORBIDDEN_V6|
      ensures HitsV6(words, bits, i) <==> Overlaps(p, FORBIDDEN_V6[i])
    {
    }
  }

  /** Both sides agree on every route text: the browser supports exactly the strict
      prefixes that the helper's policy accepts. */
  lemma {:induction false} BrowserAgreesWithHelper(cidr: string)
    ensures IsSupportedSubnet(cidr)
            <==> StrictPrefix(cidr).Some? && SafeProxyRoute(StrictPrefix(cidr).value)
  {
    if ':' in cidr {
      if Cidr6(cidr).Some? {
        var p := Cidr6(cidr).value;
        SafeRouteV6(p.address.words, p.bits);
      }
    } else {
      if Cidr4(cidr).Some? {
        StrictIpv4Read(cidr);
        var p := Cidr4(cidr).value;
        SafeRouteV4(p.address.octets, p.bits);
      } else if IsSupportedSubnet(cidr) {
        PrintedIsStrict(Split(cidr, '/')[0], ParseCidr(cidr).value.octets);
      }
    }
  }

  /** Every address inside an accepted route, IPv4-mapped ones aside, is safe. */
  lemma {:induction false} MembersAreSafe(p: Prefix, a: Address)
    requires p.Valid() && a.Valid() && SafeProxyRoute(p)
    requires Contains(p, a) && !Is4In6(a)
    ensures SafeProxyIp(a)
  {
    AllForbiddenValid();
    forall i | 0 <= i < |FORBIDDEN| ensures !Contains(FORBIDDEN[i], a) {
      var f := FORBIDDEN[i];
      if Contains(f, a) {
        var short := Min(p.bits, f.bits);
        match a {
          case V4(x) =>
            SamePrefixShorter(x, p.address.octets, 8, p.bits, short);
            SamePrefixShorter(x, f.address.octets, 8, f.bits, short);
          case V6(x) =>
            SamePrefixShorter(x, p.address.words, 16, p.bits, short);
            SamePrefixShorter(x, f.address.words, 16, f.bits, short);
        }
        assert false;
      }
    }
  }

  /** The exclusion of IPv4-mapped addresses is needed: this accepted route contains
      the mapped form of the loopback address. */
  lemma {:induction false} MappedMemberIsNotSafe() returns (p: Prefix, a: Address)
    ensures p.Valid() && a.Valid() && SafeProxyRoute(p) && Contains(p, a) && !SafeProxyIp(a)
  {
    var n: seq<nat> := [0, 0, 0, 0, 0, 0xfffe, 0, 0];
    var x: seq<nat> := [0, 0, 0, 0, 0, 0xffff, 0x7f00, 1];
    p, a := Prefix(V6(n), 95), V6(x);
    MappedMember(n, x, p, a);
  }

  /** A member of an accepted route is safe exactly when it is not IPv4-mapped, or the
      IPv4 address it maps is in no forbidden range. */
  lemma {:induction false} MemberSafeIff(p: Prefix, a: Address)
    requires p.Valid() && a.Valid() && SafeProxyRoute(p) && Contains(p, a)
    ensures SafeProxyIp(a) <==> !Is4In6(a) || forall i | 0 <= i < |FORBIDDEN_V4| :: FORBIDDEN_V4[i].Valid() && !Contains(FORBIDDEN_V4[i], Unmap(a))
  {
    ForbiddenValid();
    AllForbiddenValid();
    if Is4In6(a) {
      assert FORBIDDEN == FORBIDDEN_V4 + FORBIDDEN_V6;
      assert Unmap(a).V4?;
      forall i | 0 <= i < |FORBIDDEN_V4| ensures FORBIDDEN[i] == FORBIDDEN_V4[i] {
      }
      forall i | |FORBIDDEN_V4| <= i < |FORBIDDEN| ensures FORBIDDEN[i].address.V6? {
      }
    } else {
      MembersAreSafe(p, a);
    }
  }

  lemma {:induction false} MappedMember(n: seq<nat>, x: seq<nat>, p: Prefix, a: Address)
    requires n == [0, 0, 0, 0, 0, 0xfffe, 0, 0] && x == [0, 0, 0, 0, 0, 0xffff, 0x7f00, 1]
    requires p == Prefix(V6(n), 95) && a == V6(x)
    ensures p.Valid() && a.Valid() && SafeProxyRoute(p) && Contains(p, a) && !SafeProxyIp(a)
  {
    WordsBelow(n);
    WordsBelow(x);
    AlmostMapped(n);
    MappedWords(n, x);
    LoopbackUnsafe(a);
  }

  lemma {:induction false} WordsBelow(n: seq<nat>)
    requires |n| == 8 && forall i | 0 <= i < 8 :: n[i] <= 0xffff
    ensures V6(n).Valid()
  {
    Ipv6Text.WordSize();
  }

  lemma {:induction false} AlmostMapped(n: seq<nat>)
    requires n == [0, 0, 0, 0, 0, 0xfffe, 0, 0] && Words(n, 16)
    ensures SafeProxyRoute(Prefix(V6(n), 95))
  {
    FarFromForbidden(n);
    SafeRouteV6(n, 95);
  }

  lemma {:induction false} MappedWords(n: seq<nat>, x: seq<nat>)
    requires n == [0, 0, 0, 0, 0, 0xfffe, 0, 0] && x == [0, 0, 0, 0, 0, 0xffff, 0x7f00, 1] && Words(n, 16) && Words(x, 16)
    ensures SamePrefix(x, n, 16, 95)
  {
    EvenOddWord(x, n);
  }

  lemma {:induction false} FarFromForbidden(n: seq<nat>)
    requires n == [0, 0, 0, 0, 0, 0xfffe, 0, 0] && Words(n, 16)
    ensures !ForbiddenV6(n, 95)
  {
    ForbiddenValid();
    forall i | 0 <= i < |FORBIDDEN_V6| ensures !HitsV6(n, 95, i) {
      var f := FORBIDDEN_V6[i].address.words;
      if i < 2 {
        NotZeroWord(n, f);
      } else {
        NotHighWord(n, f, FORBIDDEN_V6[i].bits);
      }
    }
  }

  lemma {:induction false} EvenOddWord(x: seq<nat>, n: seq<nat>)
    requires |x| == |n| == 8 && Words(x, 16) && Words(n, 16)
    requires x[..5] == n[..5] && x[5] == 0xffff && n[5] == 0xfffe
    ensures SamePrefix(x, n, 16, 95)
  {
    SkipEqual(x, n, 16, 95, 5);
    HeadPartial(x[5..], n[5..], 16, 15);
    assert Pow2(1) == 2;
    QuotIs(0xffff, 2, 0x7fff);
    QuotIs(0xfffe, 2, 0x7fff);
  }

  lemma {:induction false} NotZeroWord(n: seq<nat>, f: seq<nat>)
    requires |f| == |n| == 8 && Words(f, 16) && Words(n, 16)
    requires n[..5] == f[..5] && n[5] == 0xfffe && f[5] == 0
    ensures !SamePrefix(n, f, 16, 95)
  {
    SkipEqual(n, f, 16, 95, 5);
    HeadPartial(n[5..], f[5..], 16, 15);
    assert Pow2(1) == 2;
    QuotIs(0xfffe, 2, 0x7fff);
    QuotIs(0, 2, 0);
  }

  lemma {:induction false} NotHighWord(n: seq<nat>, f: seq<nat>, bits: nat)
    requires |f| == |n| == 8 && Words(f, 16) && Words(n, 16)
    requires 8 <= bits <= 10 && n[0] == 0 && f[0] >= 0x8000
    ensures !SamePrefix(n, f, 16, bits)
  {
    HeadPartial(n, f, 16, bits);
    Pow2Add(16 - bits, bits);
    OctetSize();
    assert Pow2(6) == 64 && Pow2(7) == 128;
    QuotIs(0, Pow2(16 - bits), 0);
  }

  lemma {:induction false} LoopbackUnsafe(a: Address)
    requires a == V6([0, 0, 0, 0, 0, 0xffff, 0x7f00, 1]) && a.Valid()
    ensures !SafeProxyIp(a)
  {
    OctetSize();
    var loop := [127, 0, 0, 1];
    assert Unmap(a) == V4(loop);
    AllForbiddenValid();
    assert FORBIDDEN[1] == Prefix(V4([127, 0, 0, 0]), 8);
    HeadCovered(loop, [127, 0, 0, 0], 8, 8);
    SamePrefixZero(loop[1..], [127, 0, 0, 0][1..], 8);
  }

  // ---------- the same rules by numbers ----------

  /** The addresses that may be reached, by their numbers: outside this network, loopback,
      link-local, multicast and the reserved block. */
  predicate Reachable(a: Address)
    requires a.Valid()
  {
    match a
    case V4(o) => o[0] != 0 && o[0] != 127 && o[0] < 224 && !(o[0] == 169 && o[1] == 254)
    case V6(w) => !(w[..7] == [0, 0, 0, 0, 0, 0, 0] && w[7] <= 1) && !(0xfe80 <= w[0] <= 0xfebf) && w[0] < 0xff00
  }

  lemma {:induction false} TopOctets(x: seq<nat>, n: seq<nat>)
    requires V4(x).Valid() && V4(n).Valid()
    ensures SamePrefix(x, n, 8, 8) <==> x[0] == n[0]
    ensures SamePrefix(x, n, 8, 16) <==> x[0] == n[0] && x[1] == n[1]
  {
    HeadCovered(x, n, 8, 8);
    SamePrefixZero(x[1..], n[1..], 8);
    HeadCovered(x, n, 8, 16);
    HeadCovered(x[1..], n[1..], 8, 8);
    SamePrefixZero(x[1..][1..], n[1..][1..], 8);
  }

  lemma {:induction false} TopNibble(x: seq<nat>, n: seq<nat>, q: nat)
    requires V4(x).Valid() && V4(n).Valid() && n[0] == 16 * q
    ensures SamePrefix(x, n, 8, 4) <==> n[0] <= x[0] < n[0] + 16
  {
    HeadPartial(x, n, 8, 4);
    assert Pow2(4) == 16;
    QuotIs(n[0], 16, q);
    QuotIs(x[0], 16, x[0] / 16);
  }

  lemma {:induction false} ForbiddenQuads(a: Address, i: nat)
    requires a.V4? && a.Valid() && i < |FORBIDDEN_V4| && FORBIDDEN_V4[i].Valid()
    ensures Contains(FORBIDDEN_V4[i], a) <==>
            var o := a.octets;
            if i == 0 then o[0] == 0 else if i == 1 then o[0] == 127 else if i == 2 then o[0] == 169 && o[1] == 254
            else if i == 3 then 224 <= o[0] < 240 else 240 <= o[0]
  {
    var o, n := a.octets, FORBIDDEN_V4[i].address.octets;
    OctetSize();
    if i < 3 {
      TopOctets(o, n);
    } else {
      TopNibble(o, n, if i == 3 then 14 else 15);
    }
  }

  /** Two addresses with all bits in common are equal. */
  lemma {:induction false} WholePrefix(a: seq<nat>, b: seq<nat>, width: nat)
    requires |a| == |b| && width > 0 && Words(a, width) && Words(b, width)
    ensures SamePrefix(a, b, width, width * |a|) <==> a == b
  {
    if a != [] {
      assert width * |a| == width + width * |a[1..]|;
      HeadCovered(a, b, width, width * |a|);
      WholePrefix(a[1..], b[1..], width);
      assert a == [a[0]] + a[1..] && b == [b[0]] + b[1..];
    }
  }

  lemma {:induction false} TopWord(x: seq<nat>, n: seq<nat>, bits: nat, size: nat, q: nat)
    requires V6(x).Valid() && V6(n).Valid() && bits < 16 && size == Pow2(16 - bits) && n[0] == q * size
    ensures SamePrefix(x, n, 16, bits) <==> n[0] <= x[0] < n[0] + size
  {
    HeadPartial(x, n, 16, bits);
    QuotIs(n[0], size, q);
    if n[0] <= x[0] < n[0] + size {
      QuotIs(x[0], size, q);
    }
  }

  lemma {:induction false} SmallWords(w: seq<nat>, n: seq<nat>, i: nat)
    requires V6(w).Valid() && V6(n).Valid() && n == [0, 0, 0, 0, 0, 0, 0, i]
    ensures SamePrefix(w, n, 16, 128) <==> w[..7] == [0, 0, 0, 0, 0, 0, 0] && w[7] == i
  {
    WholePrefix(w, n, 16);
    assert w == w[..7] + [w[7]] && n == n[..7] + [n[7]];
  }

  lemma {:induction false} HighWords(w: seq<nat>, n: seq<nat>)
    requires V6(w).Valid() && V6(n).Valid()
    ensures n[0] == 0xfe80 ==> (SamePrefix(w, n, 16, 10) <==> 0xfe80 <= w[0] <= 0xfebf)
    ensures n[0] == 0xff00 ==> (SamePrefix(w, n, 16, 8) <==> 0xff00 <= w[0])
  {
    Ipv6Text.WordSize();
    OctetSize();
    assert Pow2(6) == 64;
    if n[0] == 0xfe80 {
      TopWord(w, n, 10, 64, 0x3fa);
    } else if n[0] == 0xff00 {
      TopWord(w, n, 8, 256, 0xff);
    }
  }

  lemma {:induction false} ForbiddenWords(a: Address, i: nat)
    requires a.V6? && a.Valid() && i < |FORBIDDEN_V6| && FORBIDDEN_V6[i].Valid()
    ensures Contains(FORBIDDEN_V6[i], a) <==>
            var w := a.words;
            if i < 2 then w[..7] == [0, 0, 0, 0, 0, 0, 0] && w[7] == i
            else if i == 2 then 0xfe80 <= w[0] <= 0xfebf else 0xff00 <= w[0]
  {
    if i < 2 {
      SmallWords(a.words, FORBIDDEN_V6[i].address.words, i);
    } else {
      HighWords(a.words, FORBIDDEN_V6[i].address.words);
    }
  }

  lemma {:induction false} ForbiddenIffV4(a: Address)
    requires a.V4? && a.Valid()
    ensures (forall i | 0 <= i < |FORBIDDEN_V4| :: FORBIDDEN_V4[i].Valid() && !Contains(FORBIDDEN_V4[i], a)) <==> Reachable(a)
  {
    ForbiddenValid();
    OctetSize();
    forall i | 0 <= i < |FORBIDDEN_V4|
      ensures Contains(FORBIDDEN_V4[i], a) <==>
              var o := a.octets;
              if i == 0 then o[0] == 0 else if i == 1 then o[0] == 127 else if i == 2 then o[0] == 169 && o[1] == 254
              else if i == 3 then 224 <= o[0] < 240 else 240 <= o[0]
    {
      ForbiddenQuads(a, i);
    }
    if !Reachable(a) {
      var o := a.octets;
      var i := if o[0] == 0 then 0 else if o[0] == 127 then 1 else if o[0] == 169 then 2 else if o[0] < 240 then 3 else 4;
      assert Contains(FORBIDDEN_V4[i], a);
    }
  }

  lemma {:induction false} ForbiddenIffV6(a: Address)
    requires a.V6? && a.Valid()
    ensures (forall i | 0 <= i < |FORBIDDEN_V6| :: FORBIDDEN_V6[i].Valid() && !Contains(FORBIDDEN_V6[i], a)) <==> Reachable(a)
  {
    ForbiddenValid();
    Ipv6Text.WordSize();
    forall i | 0 <= i < |FORBIDDEN_V6|
      ensures Contains(FORBIDDEN_V6[i], a) <==>
              var w := a.words;
              if i < 2 then w[..7] == [0, 0, 0, 0, 0, 0, 0] && w[7] == i
              else if i == 2 then 0xfe80 <= w[0] <= 0xfebf else 0xff00 <= w[0]
    {
      ForbiddenWords(a, i);
    }
    if !Reachable(a) {
      var w := a.words;
      var i := if w[0] >= 0xff00 then 3 else if w[0] >= 0xfe80 then 2 else w[7];
      assert Contains(FORBIDDEN_V6[i], a);
    }
  }

  /** The forbidden ranges hold exactly the addresses that may not be reached. */
  lemma {:induction false} ForbiddenIff(a: Address)
    requires a.Valid()
    ensures (forall i | 0 <= i < |FORBIDDEN| :: FORBIDDEN[i].Valid() && !Contains(FORBIDDEN[i], a)) <==> Reachable(a)
  {
    ForbiddenValid();
    AllForbiddenValid();
    forall i | 0 <= i < |FORBIDDEN_V4| ensures FORBIDDEN[i] == FORBIDDEN_V4[i] {
    }
    forall i | 0 <= i < |FORBIDDEN_V6| ensures FORBIDDEN[|FORBIDDEN_V4| + i] == FORBIDDEN_V6[i] {
    }
    forall i | |FORBIDDEN_V4| <= i < |FORBIDDEN| ensures FORBIDDEN[i] == FORBIDDEN_V6[i - |FORBIDDEN_V4|] {
    }
    if a.V4? {
      ForbiddenIffV4(a);
    } else {
      ForbiddenIffV6(a);
    }
  }

  /** `safeProxyIP` by numbers: an address is safe exactly if it, or the IPv4 address it
      maps, may be reached. */
  lemma {:induction false} SafeIpIff(a: Address)
    requires a.Valid()
    ensures SafeProxyIp(a) <==> Reachable(Unmap(a))
    ensures Is4In6(a) <==> a.V6? && a.words[..6] == [0, 0, 0, 0, 0, 0xffff]
    ensures Is4In6(a) ==> var u := Unmap(a);
            && u.V4? && a.words[6] == 256 * u.octets[0] + u.octets[1] && a.words[7] == 256 * u.octets[2] + u.octets[3]
    ensures !Is4In6(a) ==> Unmap(a) == a
  {
    AllForbiddenValid();
    ForbiddenIff(Unmap(a));
    if a.V6? {
      assert a.words[..6] == a.words[..5] + [a.words[5]];
      assert a.words[..6][..5] == a.words[..5];
    }
  }

  lemma {:induction false} OverlapShared(p: Prefix, f: Prefix)
    requires p.Valid() && f.Valid()
    ensures Overlaps(p, f) <==> exists a: Address :: a.Valid() && Contains(p, a) && Contains(f, a)
  {
    match (p.address, f.address) {
      case (V4(m), V4(n)) =>
        OverlapAtShorter(m, p.bits, n, f.bits, 8);
        if x :| |x| == |m| && Words(x, 8) && SamePrefix(x, m, 8, p.bits) && SamePrefix(x, n, 8, f.bits) {
          assert V4(x).Valid() && Contains(p, V4(x)) && Contains(f, V4(x));
        }
      case (V6(m), V6(n)) =>
        OverlapAtShorter(m, p.bits, n, f.bits, 16);
        if x :| |x| == |m| && Words(x, 16) && SamePrefix(x, m, 16, p.bits) && SamePrefix(x, n, 16, f.bits) {
          assert V6(x).Valid() && Contains(p, V6(x)) && Contains(f, V6(x));
        }
      case _ =>
    }
  }

  /** Every address of the route may be reached. */
  ghost predicate MembersReachable(p: Prefix)
    requires p.Valid()
  {
    forall a: Address | a.Valid() && Contains(p, a) :: Reachable(a)
  }

  lemma {:induction false} AvoidsForbidden(p: Prefix)
    requires p.Valid()
    ensures (forall i | 0 <= i < |FORBIDDEN| :: FORBIDDEN[i].Valid() && !Overlaps(p, FORBIDDEN[i])) <==> MembersReachable(p)
  {
    AllForbiddenValid();
    if i :| 0 <= i < |FORBIDDEN| && Overlaps(p, FORBIDDEN[i]) {
      OverlapShared(p, FORBIDDEN[i]);
      var a: Address :| a.Valid() && Contains(p, a) && Contains(FORBIDDEN[i], a);
      ForbiddenIff(a);
    } else {
      forall a: Address | a.Valid() && Contains(p, a) ensures Reachable(a) {
        forall i | 0 <= i < |FORBIDDEN| ensures !Contains(FORBIDDEN[i], a) {
          OverlapShared(p, FORBIDDEN[i]);
        }
        ForbiddenIff(a);
      }
    }
  }

  /** `safeProxyRoute` by numbers: a route is accepted exactly if its length is not 0, its
      network is not IPv4-mapped and all its addresses may be reached. */
  lemma {:induction false} SafeRouteIff(p: Prefix)
    requires p.Valid()
    ensures SafeProxyRoute(p) <==> p.bits != 0 && !Is4In6(p.address) && MembersReachable(p)
  {
    AllForbiddenValid();
    AvoidsForbidden(p);
  }

  /** The same for the browser, from the text of the route. */
  lemma {:induction false} SupportedIff(cidr: string)
    ensures IsSupportedSubnet(cidr) <==>
            && StrictPrefix(cidr).Some?
            && var p := StrictPrefix(cidr).value; p.bits != 0 && !Is4In6(p.address) && MembersReachable(p)
  {
    BrowserAgreesWithHelper(cidr);
    if StrictPrefix(cidr).Some? {
      SafeRouteIff(StrictPrefix(cidr).value);
    }
  }
}
