/** The text of IPv6 addresses (section 2.2 of RFC 4291) as the browser parses it. */
module Ipv6Text {
  import opened Text
  import opened Prefixes

  predicate IsHex(c: char) {
    IsDigit(c) || 'a' <= c <= 'f' || 'A' <= c <= 'F'
  }

  function HexDigit(c: char): (d: nat)
    requires IsHex(c)
    ensures d < 16
  {
    if IsDigit(c) then DigitValue(c)
    else if 'a' <= c <= 'f' then c as int - 'a' as int + 10
    else c as int - 'A' as int + 10
  }

  predicate AllHex(s: string) {
    forall i | 0 <= i < |s| :: IsHex(s[i])
  }

  /** `parseInt(s, 16)` on hexadecimal digits. */
  function HexValue(s: string): nat
    requires AllHex(s)
  {
    if s == "" then 0 else HexValue(s[..|s| - 1]) * 16 + HexDigit(s[|s| - 1])
  }

  /** `/^[0-9a-fA-F]{1,4}$/`. */
  predicate HexGroup(s: string) {
    1 <= |s| <= 4 && AllHex(s)
  }

  predicate HexGroups(groups: seq<string>) {
    forall i | 0 <= i < |groups| :: HexGroup(groups[i])
  }

  lemma {:induction false} HexValueBound(s: string)
    requires AllHex(s) && |s| <= 4
    ensures HexValue(s) < if |s| == 0 then 1 else if |s| == 1 then 16 else if |s| == 2 then 256 else if |s| == 3 then 4096 else 65536
  {
    if s != "" {
      HexValueBound(s[..|s| - 1]);
    }
  }

  lemma {:induction false} WordSize()
    ensures Pow2(16) == 65536
  {
    Pow2Add(8, 8);
    Pow2Add(4, 4);
    assert Pow2(4) == 16;
  }

  /** `n.toString(16)`. */
  function Hex(n: nat): (s: string)
    ensures |s| >= 1 && AllHex(s) && HexValue(s) == n && ':' !in s && '.' !in s
    ensures (n < 16 ==> |s| <= 1) && (n < 256 ==> |s| <= 2) && (n < 4096 ==> |s| <= 3) && (n < 65536 ==> |s| <= 4)
  {
    if n < 16 then [HexChar(n)]
    else
      var front := Hex(n / 16);
      var s := front + [HexChar(n % 16)];
      assert s[..|s| - 1] == front;
      s
  }

  function HexChar(d: nat): (c: char)
    requires d < 16
    ensures IsHex(c) && HexDigit(c) == d
  {
    if d < 10 then DigitChar(d) else (d + 87) as char
  }

  /** `s.split("::")`: left to right, without overlaps. */
  function SplitDouble(s: string): (parts: seq<string>)
    ensures |parts| >= 1
    ensures forall p, c | p in parts && c in p :: c in s
  {
    if |s| < 2 then [s]
    else if s[0] == ':' && s[1] == ':' then [""] + SplitDouble(s[2..])
    else
      var rest := SplitDouble(s[1..]);
      [[s[0]] + rest[0]] + rest[1..]
  }

  function LastColon(s: string): (i: nat)
    requires ':' in s
    ensures i < |s| && s[i] == ':' && ':' !in s[i + 1..]
  {
    if s[|s| - 1] == ':' then |s| - 1 else
      var i := LastColon(s[..|s| - 1]);
      assert s[i + 1..] == s[..|s| - 1][i + 1..] + [s[|s| - 1]];
      i
  }

  predicate Octet(t: string) {
    CanonicalDecimal(t) && DecimalValue(t) <= 255
  }

  predicate FourOctets(octets: seq<string>) {
    |octets| == 4 && Octet(octets[0]) && Octet(octets[1]) && Octet(octets[2]) && Octet(octets[3])
  }

  /** The last two groups written in dotted decimal become two hexadecimal groups. */
  function ReplaceDotted(text: string): Option<string>
    requires ':' in text
  {
    var last := LastColon(text);
    var octets := Split(text[last + 1..], '.');
    if !FourOctets(octets) then None
    else Some(WithTail(text[..last + 1], Pair(octets[0], octets[1]), Pair(octets[2], octets[3])))
  }

  function Pair(a: string, b: string): nat
    requires Octet(a) && Octet(b)
  {
    DecimalValue(a) * 256 + DecimalValue(b)
  }

  function WithTail(front: string, hi: nat, lo: nat): string {
    front + Hex(hi) + ":" + Hex(lo)
  }

  function Groups(half: string): seq<string> {
    if half == "" then [] else Split(half, ':')
  }

  function GroupValues(groups: seq<string>): (ws: seq<nat>)
    requires HexGroups(groups)
    ensures |ws| == |groups| && forall i | 0 <= i < |ws| :: ws[i] == HexValue(groups[i])
    ensures Words(ws, 16)
  {
    var ws := seq(|groups|, i requires 0 <= i < |groups| => HexValue(groups[i]));
    assert Words(ws, 16) by {
      WordSize();
      forall i | 0 <= i < |ws| ensures ws[i] < Pow2(16) {
        HexValueBound(groups[i]);
      }
    }
    ws
  }

  function Zeros(n: nat): (z: seq<nat>)
    ensures |z| == n && forall i | 0 <= i < n :: z[i] == 0
  {
    seq(n, i => 0)
  }

  /** The words of the two halves, with zeros for the groups `::` stands for. */
  function Assemble(left: seq<string>, right: seq<string>, compressed: bool): (r: Option<seq<nat>>)
    ensures r.Some? ==> |r.value| == 8 && Words(r.value, 16)
  {
    var count := |left| + |right|;
    if (if compressed then count >= 8 else count != 8) then None
    else if !HexGroups(left) || !HexGroups(right) then None
    else Some(GroupValues(left) + Zeros(8 - count) + GroupValues(right))
  }

  function ParseGroups(text: string): (r: Option<seq<nat>>)
    ensures r.Some? ==> |r.value| == 8 && Words(r.value, 16)
  {
    var halves := SplitDouble(text);
    if |halves| > 2 then None
    else Assemble(Groups(halves[0]), if |halves| == 2 then Groups(halves[1]) else [], |halves| == 2)
  }

  function Unbracket(s: string): string {
    if |s| > 1 && s[0] == '[' && s[|s| - 1] == ']' then s[1..|s| - 1] else s
  }

  predicate AddressChar(c: char) { IsHex(c) || c == ':' || c == '.' }

  predicate AddressText(text: string) {
    text != "" && (forall c | c in text :: AddressChar(c)) && ':' in text
  }

  /** What the parser accepts and returns: always eight sixteen-bit words. */
  function Parse(input: string): (r: Option<seq<nat>>)
    ensures r.Some? ==> |r.value| == 8 && Words(r.value, 16)
    ensures r.Some? ==> ':' in input
  {
    var text := Unbracket(input);
    if !AddressText(text) then None
    else if '.' in text then
      match ReplaceDotted(text)
      case None => None
      case Some(plain) => ParseGroups(plain)
    else ParseGroups(text)
  }

  /** The octet loop: the values of four canonical octets, or nothing. */
  method OctetValues(octets: seq<string>) returns (values: Option<seq<nat>>)
    ensures values.Some? <==> FourOctets(octets)
    ensures values.Some? ==> |values.value| == 4 && forall j | 0 <= j < 4 :: values.value[j] == DecimalValue(octets[j])
  {
    if |octets| != 4 {
      return None;
    }
    var read: seq<nat> := [];
    for i := 0 to 4
      invariant |read| == i
      invariant forall j | 0 <= j < i :: Octet(octets[j]) && read[j] == DecimalValue(octets[j])
    {
      if !Octet(octets[i]) {
        return None;
      }
      read := read + [DecimalValue(octets[i])];
    }
    return Some(read);
  }

  method RewriteDotted(text: string) returns (result: Option<string>)
    requires ':' in text
    ensures result == ReplaceDotted(text)
  {
    var lastColon := LastColon(text);
    var octets := Split(text[lastColon + 1..], '.');
    var values := OctetValues(octets);
    if values.None? {
      return None;
    }
    var v := values.value;
    assert v[0] * 256 + v[1] == Pair(octets[0], octets[1]) && v[2] * 256 + v[3] == Pair(octets[2], octets[3]);
    return Some(WithTail(text[..lastColon + 1], v[0] * 256 + v[1], v[2] * 256 + v[3]));
  }

  method ValidGroups(groups: seq<string>) returns (valid: bool)
    ensures valid <==> HexGroups(groups)
  {
    for i := 0 to |groups|
      invariant forall j | 0 <= j < i :: HexGroup(groups[j])
    {
      if !HexGroup(groups[i]) {
        return false;
      }
    }
    return true;
  }

  method PushGroups(start: seq<nat>, groups: seq<string>) returns (words: seq<nat>)
    requires HexGroups(groups)
    ensures words == start + GroupValues(groups)
  {
    words := start;
    for i := 0 to |groups|
      invariant words == start + GroupValues(groups)[..i]
    {
      words := words + [HexValue(groups[i])];
    }
  }

  /** The group loops: validate every group, then push left, zeros and right. */
  method ReadWords(left: seq<string>, right: seq<string>, compressed: bool) returns (result: Option<seq<nat>>)
    ensures result == Assemble(left, right, compressed)
  {
    var count := |left| + |right|;
    if if compressed then count >= 8 else count != 8 {
      return None;
    }
    var validLeft := ValidGroups(left);
    var validRight := ValidGroups(right);
    if !validLeft || !validRight {
      return None;
    }
    var words := PushGroups([], left);
    ghost var start := words;
    if compressed {
      for i := count to 8
        invariant words == start + Zeros(i - count)
      {
        words := words + [0];
      }
    }
    assert words == GroupValues(left) + Zeros(8 - count);
    words := PushGroups(words, right);
    return Some(words);
  }

  /** The parser as written, by loops that push words. */
  method ParseAddress(input: string) returns (result: Option<seq<nat>>)
    ensures result == Parse(input)
  {
    var text := Unbracket(input);
    if !AddressText(text) {
      return None;
    }
    if '.' in text {
      var plain := RewriteDotted(text);
      if plain.None? {
        return None;
      }
      text := plain.value;
    }
    var halves := SplitDouble(text);
    if |halves| > 2 {
      return None;
    }
    result := ReadWords(Groups(halves[0]), if |halves| == 2 then Groups(halves[1]) else [], |halves| == 2);
  }

  // ---------- every text form parses back to the words it spells ----------

  /** A group of one to four hexadecimal digits, in either case, that spells `w`. */
  predicate Spells(group: string, w: nat) {
    HexGroup(group) && HexValue(group) == w
  }

  predicate SpellsAll(groups: seq<string>, words: seq<nat>) {
    |groups| == |words| && forall i | 0 <= i < |groups| :: Spells(groups[i], words[i])
  }

  predicate NoDouble(s: string) {
    forall i | 0 < i < |s| :: s[i] == ':' ==> s[i - 1] != ':'
  }

  lemma {:induction false} SplitDoublePlain(s: string)
    requires NoDouble(s)
    ensures SplitDouble(s) == [s]
  {
    if |s| >= 2 {
      assert s[1] == ':' ==> s[0] != ':';
      SplitDoublePlain(s[1..]);
      assert [s[0]] + s[1..] == s;
    }
  }

  lemma {:induction false} SplitDoubleAt(a: string, b: string)
    requires NoDouble(a) && NoDouble(b) && (a != "" ==> a[|a| - 1] != ':')
    ensures SplitDouble(a + "::" + b) == [a, b]
  {
    var s := a + "::" + b;
    if a == "" {
      assert s[2..] == b;
      SplitDoublePlain(b);
    } else {
      var t := a[1..] + "::" + b;
      assert s[1..] == t;
      SplitDoubleAt(a[1..], b);
      assert s[0] == a[0] && s[1] == if |a| == 1 then ':' else a[1];
      assert !(s[0] == ':' && s[1] == ':');
      assert SplitDouble(s) == [[s[0]] + a[1..]] + [a[1..], b][1..];
      assert [a[0]] + a[1..] == a;
    }
  }

  lemma {:induction false} JoinShape(groups: seq<string>)
    requires HexGroups(groups)
    ensures var s := Join(groups, ':');
            && NoDouble(s)
            && (|groups| > 0 ==> s != "" && s[0] != ':' && s[|s| - 1] != ':')
            && (forall c | c in s :: IsHex(c) || c == ':')
            && (|groups| > 1 ==> ':' in s)
  {
    if |groups| > 1 {
      JoinShape(groups[1..]);
    }
  }

  lemma {:induction false} GroupsOfJoin(groups: seq<string>)
    requires HexGroups(groups)
    ensures Groups(Join(groups, ':')) == groups
  {
    JoinShape(groups);
    if |groups| > 0 {
      assert forall i | 0 <= i < |groups| :: ':' !in groups[i];
      SplitJoin(groups, ':');
    }
  }

  lemma {:induction false} ParseGroupsFull(groups: seq<string>, words: seq<nat>)
    requires |words| == 8 && SpellsAll(groups, words)
    ensures ParseGroups(Join(groups, ':')) == Some(words)
  {
    JoinShape(groups);
    SplitDoublePlain(Join(groups, ':'));
    GroupsOfJoin(groups);
    AssembleSpelled(groups, [], words, 8, 8);
  }

  lemma {:induction false} AssembleSpelled(left: seq<string>, right: seq<string>, words: seq<nat>, i: nat, j: nat)
    requires |words| == 8 && i <= j <= 8 && (forall k | i <= k < j :: words[k] == 0)
    requires SpellsAll(left, words[..i]) && SpellsAll(right, words[j..])
    ensures Assemble(left, right, i < j) == Some(words)
  {
    assert GroupValues(left) == words[..i];
    assert GroupValues(right) == words[j..];
    assert Zeros(j - i) == words[i..j];
    assert words == words[..i] + words[i..j] + words[j..];
  }

  lemma {:induction false} ParseGroupsCompressed(left: seq<string>, right: seq<string>, words: seq<nat>, i: nat, j: nat)
    requires |words| == 8 && i < j <= 8 && (forall k | i <= k < j :: words[k] == 0)
    requires SpellsAll(left, words[..i]) && SpellsAll(right, words[j..])
    ensures ParseGroups(Join(left, ':') + "::" + Join(right, ':')) == Some(words)
  {
    JoinShape(left);
    JoinShape(right);
    SplitDoubleAt(Join(left, ':'), Join(right, ':'));
    GroupsOfJoin(left);
    GroupsOfJoin(right);
    AssembleSpelled(left, right, words, i, j);
  }

  /** `a.b.c.d` for the two words `hi` and `lo`. */
  function Quad(hi: nat, lo: nat): string {
    Join([Decimal(hi / 256), Decimal(hi % 256), Decimal(lo / 256), Decimal(lo % 256)], '.')
  }

  lemma {:induction false} QuadShape(hi: nat, lo: nat)
    ensures ':' !in Quad(hi, lo) && '.' in Quad(hi, lo)
    ensures forall c | c in Quad(hi, lo) :: IsDigit(c) || c == '.'
    ensures Split(Quad(hi, lo), '.') == [Decimal(hi / 256), Decimal(hi % 256), Decimal(lo / 256), Decimal(lo % 256)]
  {
    var parts := [Decimal(hi / 256), Decimal(hi % 256), Decimal(lo / 256), Decimal(lo % 256)];
    assert forall p | p in parts :: AllDigits(p);
    forall c | c in Quad(hi, lo) ensures IsDigit(c) || c == '.' {
      JoinChars(parts, '.', c);
    }
    SplitJoin(parts, '.');
  }

  lemma {:induction false} LastColonIs(front: string, tail: string)
    requires front != "" && front[|front| - 1] == ':' && ':' !in tail
    ensures ':' in front + tail && LastColon(front + tail) == |front| - 1
  {
    var text := front + tail;
    assert text[|front| - 1] == ':';
    if tail != "" {
      assert text[|text| - 1] in tail;
      assert text[..|text| - 1] == front + tail[..|tail| - 1];
      LastColonIs(front, tail[..|tail| - 1]);
    }
  }

  lemma {:induction false} UnbracketPlain(text: string)
    requires text != "" && forall c | c in text :: AddressChar(c)
    ensures Unbracket(text) == text
  {
    assert text[0] in text;
  }

  lemma {:induction false} ReplaceDottedTail(front: string, tail: string, octets: seq<string>)
    requires front != "" && front[|front| - 1] == ':' && ':' !in tail
    requires Split(tail, '.') == octets && FourOctets(octets)
    ensures ':' in front + tail
    ensures ReplaceDotted(front + tail)
            == Some(WithTail(front, Pair(octets[0], octets[1]), Pair(octets[2], octets[3])))
  {
    LastColonIs(front, tail);
    assert (front + tail)[|front|..] == tail;
    assert (front + tail)[..|front|] == front;
  }

  /** Rewriting the dotted tail leaves the same address in hexadecimal groups. */
  lemma {:induction false} ParseDotted(front: string, hi: nat, lo: nat)
    requires hi < 65536 && lo < 65536
    requires front != "" && front[|front| - 1] == ':'
    requires forall c | c in front :: IsHex(c) || c == ':'
    ensures Parse(front + Quad(hi, lo)) == ParseGroups(WithTail(front, hi, lo))
  {
    var quad, octets := Quad(hi, lo), [Decimal(hi / 256), Decimal(hi % 256), Decimal(lo / 256), Decimal(lo % 256)];
    QuadShape(hi, lo);
    OctetsOf(hi);
    OctetsOf(lo);
    ReplaceDottedTail(front, quad, octets);
    ParseTail(front, quad, WithTail(front, hi, lo));
  }

  lemma {:induction false} ParseTail(front: string, tail: string, plain: string)
    requires ':' in front && forall c | c in front :: IsHex(c) || c == ':'
    requires '.' in tail && forall c | c in tail :: IsDigit(c) || c == '.'
    requires ReplaceDotted(front + tail) == Some(plain)
    ensures Parse(front + tail) == ParseGroups(plain)
  {
    UnbracketPlain(front + tail);
  }

  lemma {:induction false} OctetsOf(w: nat)
    requires w < 65536
    ensures Octet(Decimal(w / 256)) && Octet(Decimal(w % 256))
    ensures Pair(Decimal(w / 256), Decimal(w % 256)) == w
  {
  }

  lemma {:induction false} ParsePlain(text: string)
    requires ':' in text && forall c | c in text :: IsHex(c) || c == ':'
    ensures Parse(text) == ParseGroups(text)
  {
    UnbracketPlain(text);
  }

  /** Written in full: eight groups in any spelling. */
  lemma {:induction false} ParseFull(groups: seq<string>, words: seq<nat>)
    requires |words| == 8 && SpellsAll(groups, words)
    ensures Parse(Join(groups, ':')) == Some(words)
  {
    JoinShape(groups);
    ParsePlain(Join(groups, ':'));
    ParseGroupsFull(groups, words);
  }

  /** With any one run of zero words, `words[i..j]`, compressed to `::`. */
  lemma {:induction false} ParseCompressed(left: seq<string>, right: seq<string>, words: seq<nat>, i: nat, j: nat)
    requires |words| == 8 && i < j <= 8 && (forall k | i <= k < j :: words[k] == 0)
    requires SpellsAll(left, words[..i]) && SpellsAll(right, words[j..])
    ensures Parse(Join(left, ':') + "::" + Join(right, ':')) == Some(words)
  {
    JoinShape(left);
    JoinShape(right);
    ParsePlain(Join(left, ':') + "::" + Join(right, ':'));
    ParseGroupsCompressed(left, right, words, i, j);
  }

  lemma {:induction false} JoinTail(groups: seq<string>, a: string, b: string)
    ensures Join(groups + [a, b], ':')
            == (if groups == [] then "" else Join(groups, ':') + ":") + a + ":" + b
  {
    assert Join([a, b], ':') == a + ":" + b;
    if groups == [] {
      assert groups + [a, b] == [a, b];
    } else {
      JoinAppend(groups, [a, b], ':');
      assert Join(groups, ':') + ":" + (a + ":" + b) == Join(groups, ':') + ":" + a + ":" + b;
    }
  }

  lemma {:induction false} SpellsTail(groups: seq<string>, words: seq<nat>, j: nat)
    requires |words| == 8 && words[6] < 65536 && words[7] < 65536 && j <= 6
    requires SpellsAll(groups, words[j..6])
    ensures SpellsAll(groups + [Hex(words[6]), Hex(words[7])], words[j..])
  {
    assert words[j..] == words[j..6] + [words[6], words[7]];
  }

  /** In full, with the last two words in dotted decimal. */
  lemma {:induction false} ParseFullDotted(groups: seq<string>, words: seq<nat>)
    requires |words| == 8 && words[6] < 65536 && words[7] < 65536
    requires SpellsAll(groups, words[..6])
    ensures Parse(Join(groups, ':') + ":" + Quad(words[6], words[7])) == Some(words)
  {
    var hi, lo := words[6], words[7];
    JoinShape(groups);
    ParseDotted(Join(groups, ':') + ":", hi, lo);
    JoinTail(groups, Hex(hi), Hex(lo));
    assert words[0..6] == words[..6] && words[0..] == words;
    SpellsTail(groups, words, 0);
    ParseGroupsFull(groups + [Hex(hi), Hex(lo)], words);
  }

  /** Compressed, with the last two words in dotted decimal. */
  lemma {:induction false} ParseCompressedDotted(left: seq<string>, right: seq<string>, words: seq<nat>, i: nat, j: nat)
    requires |words| == 8 && words[6] < 65536 && words[7] < 65536
    requires i < j <= 6 && (forall k | i <= k < j :: words[k] == 0)
    requires SpellsAll(left, words[..i]) && SpellsAll(right, words[j..6])
    ensures var middle := if right == [] then "" else Join(right, ':') + ":";
            Parse(Join(left, ':') + "::" + middle + Quad(words[6], words[7])) == Some(words)
  {
    var hi, lo := words[6], words[7];
    JoinShape(left);
    JoinShape(right);
    var middle := if right == [] then "" else Join(right, ':') + ":";
    var front := Join(left, ':') + "::" + middle;
    ParseDotted(front, hi, lo);
    JoinTail(right, Hex(hi), Hex(lo));
    SpellsTail(right, words, j);
    ParseGroupsCompressed(left, right + [Hex(hi), Hex(lo)], words, i, j);
    WithTailAppend(Join(left, ':') + "::", middle, hi, lo);
  }

  lemma {:induction false} WithTailAppend(a: string, b: string, hi: nat, lo: nat)
    ensures WithTail(a + b, hi, lo) == a + WithTail(b, hi, lo)
  {
    var h, l := Hex(hi), Hex(lo);
    assert a + b + h + ":" + l == a + (b + h + ":" + l);
  }
}
