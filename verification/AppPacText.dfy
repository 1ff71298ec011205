/** The app PAC's own parser of address literals, against the strict parsers. */
module AppPacText {
  import opened Text
  import opened Prefixes
  import opened Subnets
  import opened Ipv6Text
  import opened AppPac

  // ---------- the script's parser ----------

  /** `/^[0-9]{1,3}$/` and at most 255. */
  predicate ScriptOctet(part: string) { ShortDigits(part) && DecimalValue(part) <= 255 }

  function FourValues(parts: seq<string>): (r: Option<seq<nat>>)
    ensures r.Some? ==> V4(r.value).Valid()
  {
    if |parts| != 4 || !ScriptOctet(parts[0]) || !ScriptOctet(parts[1]) || !ScriptOctet(parts[2]) || !ScriptOctet(parts[3]) then None
    else
      var a, b, c, d := DecimalValue(parts[0]), DecimalValue(parts[1]), DecimalValue(parts[2]), DecimalValue(parts[3]);
      FourOctetsValid(a, b, c, d);
      Some([a, b, c, d])
  }

  /** `ipv4`. */
  function ScriptQuad(text: string): (r: Option<seq<nat>>)
    ensures r.Some? ==> V4(r.value).Valid()
  {
    FourValues(Split(text, '.'))
  }

  /** `/^[0-9a-f]{1,4}$/`. */
  predicate LowerGroup(part: string) { HexGroup(part) && NoUpper(part) }

  predicate NoUpper(text: string) { forall i | 0 <= i < |text| :: !('A' <= text[i] <= 'Z') }

  /** The words of one part between colons; only the last may be dotted. */
  function PartWords(part: string, last: bool): (r: Option<seq<nat>>) {
    if '.' in part && last then
      match ScriptQuad(part)
      case None => None
      case Some(v) => Some([v[0] * 256 + v[1], v[2] * 256 + v[3]])
    else if LowerGroup(part) then Some([HexValue(part)])
    else None
  }

  /** All parts' words in order, or nothing. */
  function AllWords(values: seq<Option<seq<nat>>>): Option<seq<nat>> {
    if values == [] then Some([])
    else
      var front, last := AllWords(values[..|values| - 1]), values[|values| - 1];
      if front.None? || last.None? then None else Some(front.value + last.value)
  }

  function PartValues(parts: seq<string>): (r: seq<Option<seq<nat>>>)
    ensures |r| == |parts| && forall i | 0 <= i < |r| :: r[i] == PartWords(parts[i], i == |parts| - 1)
  {
    seq(|parts|, i requires 0 <= i < |parts| => PartWords(parts[i], i == |parts| - 1))
  }

  /** `words`, on the parts of one half. */
  function PartsWords(parts: seq<string>): Option<seq<nat>> { AllWords(PartValues(parts)) }

  /** Left words, zeros for `::`, right words. */
  function Fill(left: Option<seq<nat>>, right: Option<seq<nat>>, compressed: bool): Option<seq<nat>> {
    if left.None? || right.None? then None
    else
      var count := |left.value| + |right.value|;
      if (if compressed then count >= 8 else count != 8) then None else Some(left.value + Zeros(8 - count) + right.value)
  }

  function ScriptHalves(halves: seq<string>): Option<seq<nat>> {
    if |halves| == 1 then Fill(PartsWords(Groups(halves[0])), Some([]), false)
    else if |halves| == 2 then Fill(PartsWords(Groups(halves[0])), PartsWords(Groups(halves[1])), true)
    else None
  }

  /** The eight words of a text with a colon. */
  function ScriptWords(text: string): Option<seq<nat>> { ScriptHalves(SplitDouble(text)) }

  lemma {:induction false} PartWordsBound(part: string, last: bool)
    ensures PartWords(part, last).Some? ==> Words(PartWords(part, last).value, 16)
  {
    WordSize();
    OctetSize();
    if LowerGroup(part) {
      HexValueBound(part);
    }
  }

  lemma {:induction false} AllWordsBound(values: seq<Option<seq<nat>>>)
    requires forall i | 0 <= i < |values| :: values[i].Some? ==> Words(values[i].value, 16)
    ensures AllWords(values).Some? ==> Words(AllWords(values).value, 16)
  {
    if values != [] {
      AllWordsBound(values[..|values| - 1]);
    }
  }

  lemma {:induction false} PartsWordsBound(parts: seq<string>)
    ensures PartsWords(parts).Some? ==> Words(PartsWords(parts).value, 16)
  {
    forall i | 0 <= i < |parts| ensures PartValues(parts)[i].Some? ==> Words(PartValues(parts)[i].value, 16) {
      PartWordsBound(parts[i], i == |parts| - 1);
    }
    AllWordsBound(PartValues(parts));
  }

  lemma {:induction false} FillBound(left: Option<seq<nat>>, right: Option<seq<nat>>, compressed: bool)
    requires (left.Some? ==> Words(left.value, 16)) && (right.Some? ==> Words(right.value, 16))
    ensures var r := Fill(left, right, compressed); r.Some? ==> |r.value| == 8 && Words(r.value, 16)
  {
  }

  lemma {:induction false} ScriptWordsBound(text: string)
    ensures ScriptWords(text).Some? ==> |ScriptWords(text).value| == 8 && Words(ScriptWords(text).value, 16)
  {
    var halves := SplitDouble(text);
    PartsWordsBound(Groups(halves[0]));
    if |halves| == 2 {
      PartsWordsBound(Groups(halves[1]));
      FillBound(PartsWords(Groups(halves[0])), PartsWords(Groups(halves[1])), true);
    } else {
      FillBound(PartsWords(Groups(halves[0])), Some([]), false);
    }
  }

  // ---------- text without dots ----------

  predicate NoDots(parts: seq<string>) { forall i | 0 <= i < |parts| :: '.' !in parts[i] }

  predicate LowerParts(parts: seq<string>) { forall i | 0 <= i < |parts| :: NoUpper(parts[i]) }

  /** The values are those of hexadecimal groups. */
  predicate GroupWise(values: seq<Option<seq<nat>>>, parts: seq<string>) {
    |values| == |parts| && forall i | 0 <= i < |parts| :: values[i] == if HexGroup(parts[i]) then Some([HexValue(parts[i])]) else None
  }

  lemma {:induction false} OneMoreGroup(parts: seq<string>, n: nat)
    requires n == |parts| - 1
    ensures HexGroups(parts) <==> HexGroups(parts[..n]) && HexGroup(parts[n])
    ensures HexGroups(parts) ==> GroupValues(parts) == GroupValues(parts[..n]) + [HexValue(parts[n])]
  {
  }

  lemma {:induction false} GroupWords(values: seq<Option<seq<nat>>>, parts: seq<string>)
    requires GroupWise(values, parts)
    ensures AllWords(values) == if HexGroups(parts) then Some(GroupValues(parts)) else None
  {
    if parts != [] {
      var n := |parts| - 1;
      GroupWords(values[..n], parts[..n]);
      OneMoreGroup(parts, n);
    }
  }

  lemma {:induction false} PlainParts(parts: seq<string>)
    requires NoDots(parts) && LowerParts(parts)
    ensures PartsWords(parts) == if HexGroups(parts) then Some(GroupValues(parts)) else None
  {
    GroupWords(PartValues(parts), parts);
  }

  lemma {:induction false} FillIsAssemble(left: seq<string>, right: seq<string>, compressed: bool)
    requires NoDots(left) && LowerParts(left) && NoDots(right) && LowerParts(right)
    ensures Fill(PartsWords(left), PartsWords(right), compressed) == Assemble(left, right, compressed)
  {
    PlainParts(left);
    PlainParts(right);
  }

  /** What holds of every character of a half holds of every character of its groups. */
  lemma {:induction false} GroupsWithin(half: string)
    ensures NoUpper(half) ==> LowerParts(Groups(half))
    ensures '.' !in half ==> NoDots(Groups(half))
  {
    var parts := Groups(half);
    forall i | 0 <= i < |parts| ensures (NoUpper(half) ==> NoUpper(parts[i])) && ('.' !in half ==> '.' !in parts[i]) {
      assert parts[i] in parts;
      forall j | 0 <= j < |parts[i]| ensures parts[i][j] in half {
        assert parts[i][j] in parts[i];
      }
    }
  }

  lemma {:induction false} HalvesWithin(text: string, half: string)
    requires half in SplitDouble(text)
    ensures NoUpper(text) ==> NoUpper(half)
    ensures '.' !in text ==> '.' !in half
  {
    forall j | 0 <= j < |half| ensures half[j] in text {
      assert half[j] in half;
    }
  }

  lemma {:induction false} ScriptPlain(text: string)
    requires NoUpper(text) && '.' !in text
    ensures ScriptWords(text) == ParseGroups(text)
  {
    var halves := SplitDouble(text);
    HalvesWithin(text, halves[0]);
    GroupsWithin(halves[0]);
    if |halves| == 2 {
      HalvesWithin(text, halves[1]);
      GroupsWithin(halves[1]);
      FillIsAssemble(Groups(halves[0]), Groups(halves[1]), true);
    } else if |halves| == 1 {
      FillIsAssemble(Groups(halves[0]), [], false);
    }
  }

  // ---------- the characters of a parsed text ----------

  predicate JoinsTo(halves: seq<string>, s: string) {
    (|halves| == 1 ==> s == halves[0]) && (|halves| == 2 ==> s == halves[0] + "::" + halves[1])
  }

  lemma {:induction false} HeadedJoins(c: char, halves: seq<string>, s: string)
    requires |halves| >= 1 && JoinsTo(halves, s)
    ensures JoinsTo([[c] + halves[0]] + halves[1..], [c] + s)
  {
    if |halves| == 2 {
      assert [c] + (halves[0] + "::" + halves[1]) == [c] + halves[0] + "::" + halves[1];
    }
  }

  lemma {:induction false} DoubleJoins(s: string)
    ensures JoinsTo(SplitDouble(s), s)
  {
    if |s| >= 2 {
      if s[0] == ':' && s[1] == ':' {
        DoubleJoins(s[2..]);
        assert s == "" + "::" + s[2..];
      } else {
        DoubleJoins(s[1..]);
        HeadedJoins(s[0], SplitDouble(s[1..]), s[1..]);
        assert s == [s[0]] + s[1..];
      }
    }
  }

  predicate HexOrColon(text: string) { forall i | 0 <= i < |text| :: IsHex(text[i]) || text[i] == ':' }

  lemma {:induction false} GroupsCover(half: string)
    requires HexGroups(Groups(half))
    ensures HexOrColon(half)
  {
    if half != "" {
      var parts := Split(half, ':');
      forall i | 0 <= i < |half| ensures IsHex(half[i]) || half[i] == ':' {
        JoinChars(parts, ':', half[i]);
        if half[i] != ':' {
          var p :| p in parts && half[i] in p;
          var k :| 0 <= k < |parts| && parts[k] == p;
          assert HexGroup(parts[k]);
        }
      }
    }
  }

  /** Only hexadecimal digits and colons parse into groups. */
  lemma {:induction false} ParsedChars(text: string)
    requires ParseGroups(text).Some?
    ensures HexOrColon(text)
  {
    var halves := SplitDouble(text);
    DoubleJoins(text);
    GroupsCover(halves[0]);
    if |halves| == 2 {
      GroupsCover(halves[1]);
    }
  }

  lemma {:induction false} PlainAddress(text: string)
    requires ':' in text && '.' !in text && Unbracket(text) == text
    ensures Parse(text) == ParseGroups(text)
  {
    if ParseGroups(text).Some? {
      ParsedChars(text);
      assert AddressText(text);
    }
  }

  // ---------- text with a dotted tail ----------

  /** A tail after the last colon of `front`. */
  predicate Tail(tail: string) { tail != "" && tail[0] != ':' && NoDouble(tail) }

  /** The last half of a text that ends in a colon: empty, or ending in a colon. */
  predicate Open(half: string) { half == "" || half[|half| - 1] == ':' }

  /** Putting a tail behind the last half. */
  function Extended(halves: seq<string>, tail: string): seq<string>
    requires |halves| >= 1
  {
    halves[..|halves| - 1] + [halves[|halves| - 1] + tail]
  }

  function Headed(c: char, halves: seq<string>): seq<string>
    requires |halves| >= 1
  {
    [[c] + halves[0]] + halves[1..]
  }

  lemma {:induction false} HeadedExtended(c: char, halves: seq<string>, tail: string)
    requires |halves| >= 1
    ensures Headed(c, Extended(halves, tail)) == Extended(Headed(c, halves), tail)
  {
    var k := |halves| - 1;
    if k == 0 {
      assert [c] + (halves[0] + tail) == [c] + halves[0] + tail;
    } else {
      assert Extended(halves, tail)[1..] == halves[1..k] + [halves[k] + tail];
      assert Headed(c, halves)[..k] == [[c] + halves[0]] + halves[1..k];
    }
  }

  lemma {:induction false} DoubleShort(front: string, tail: string)
    requires (front == ":" || front == "::") && Tail(tail)
    ensures TailExtends(front, tail)
  {
    var s := front + tail;
    SplitDoublePlain(tail);
    if front == ":" {
      assert s[1..] == tail;
      assert SplitDouble(s) == [[s[0]] + tail];
    } else {
      assert s[2..] == tail;
      assert SplitDouble(s) == [""] + [tail];
      assert front[2..] == "" && SplitDouble("") == [""];
      assert SplitDouble(front) == ["", ""];
      assert "" + tail == tail;
    }
  }

  predicate TailExtends(front: string, tail: string) { SplitDouble(front + tail) == Extended(SplitDouble(front), tail) }

  lemma {:induction false} LastOpen(front: string)
    requires front != "" && front[|front| - 1] == ':'
    ensures Open(SplitDouble(front)[|SplitDouble(front)| - 1])
  {
    if |front| > 1 {
      if front[0] == ':' && front[1] == ':' {
        if |front| > 2 {
          LastOpen(front[2..]);
        } else {
          assert SplitDouble(front[2..]) == [""];
        }
      } else {
        LastOpen(front[1..]);
        DoubleJoins(front[1..]);
      }
    }
  }

  lemma {:induction false} DoubleSkip(front: string, tail: string)
    requires |front| > 2 && front[0] == ':' && front[1] == ':' && TailExtends(front[2..], tail)
    ensures TailExtends(front, tail)
  {
    var s, halves := front + tail, SplitDouble(front[2..]);
    assert s[2..] == front[2..] + tail;
    assert SplitDouble(s) == [""] + Extended(halves, tail);
    assert SplitDouble(front) == [""] + halves;
    assert Extended([""] + halves, tail) == [""] + Extended(halves, tail) by {
      assert ([""] + halves)[..|halves|] == [""] + halves[..|halves| - 1];
    }
  }

  lemma {:induction false} DoubleHead(front: string, tail: string)
    requires |front| > 1 && !(front[0] == ':' && front[1] == ':') && TailExtends(front[1..], tail)
    ensures TailExtends(front, tail)
  {
    var s, halves := front + tail, SplitDouble(front[1..]);
    assert s[1..] == front[1..] + tail && s[0] == front[0] && s[1] == front[1];
    assert SplitDouble(s) == Headed(s[0], Extended(halves, tail));
    assert SplitDouble(front) == Headed(front[0], halves);
    HeadedExtended(front[0], halves, tail);
  }

  lemma {:induction false} DoubleTail(front: string, tail: string)
    requires front != "" && front[|front| - 1] == ':' && Tail(tail)
    ensures TailExtends(front, tail)
  {
    if |front| == 1 || front == "::" {
      assert |front| == 1 ==> front == ":";
      DoubleShort(front, tail);
    } else if front[0] == ':' && front[1] == ':' {
      assert |front| == 2 ==> front == "::";
      DoubleTail(front[2..], tail);
      DoubleSkip(front, tail);
    } else {
      DoubleTail(front[1..], tail);
      DoubleHead(front, tail);
    }
  }

  lemma {:induction false} SplitBoth(a: string, b: string, sep: char)
    ensures Split(a + [sep] + b, sep) == Split(a, sep) + Split(b, sep)
  {
    var s := a + [sep] + b;
    if a == "" {
      assert s[1..] == b;
    } else {
      assert s[1..] == a[1..] + [sep] + b;
      SplitBoth(a[1..], b, sep);
    }
  }

  /** The groups before an open half's tail. */
  function Before(half: string): seq<string>
    requires Open(half)
  {
    if half == "" then [] else Split(half[..|half| - 1], ':')
  }

  lemma {:induction false} GroupsTail(half: string, tail: string)
    requires Open(half) && tail != ""
    ensures Groups(half + tail) == Before(half) + Split(tail, ':')
  {
    if half == "" {
      assert half + tail == tail;
    } else {
      var front := half[..|half| - 1];
      assert half + tail == front + [':'] + tail;
      SplitBoth(front, tail, ':');
    }
  }

  lemma {:induction false} SplitPair(a: string, b: string)
    requires ':' !in a && ':' !in b
    ensures Split(a + ":" + b, ':') == [a, b]
  {
    SplitHead(a, b, ':');
    SplitPlain(b, ':');
  }

  /** A dotted last part gives two words. */
  lemma {:induction false} DottedParts(before: seq<string>, tail: string, a: string, b: string)
    requires NoDots(before) && LowerParts(before) && HexGroup(a) && HexGroup(b)
    requires PartWords(tail, true) == Some([HexValue(a), HexValue(b)])
    ensures PartsWords(before + [tail]) == if HexGroups(before + [a, b]) then Some(GroupValues(before + [a, b])) else None
  {
    var values := PartValues(before + [tail]);
    var front := values[..|before|];
    assert GroupWise(front, before);
    GroupWords(front, before);
    assert values[|before|] == Some([HexValue(a), HexValue(b)]);
    TwoMore(before, a, b);
  }

  lemma {:induction false} TwoMore(before: seq<string>, a: string, b: string)
    requires HexGroup(a) && HexGroup(b)
    ensures HexGroups(before + [a, b]) <==> HexGroups(before)
    ensures HexGroups(before) ==> GroupValues(before + [a, b]) == GroupValues(before) + [HexValue(a), HexValue(b)]
  {
    var all := before + [a, b];
    assert forall i | 0 <= i < |before| :: all[i] == before[i];
  }

  // ---------- the two parsers ----------

  /** A text whose dots are all in one canonical quad at its end. */
  predicate StrictDots(text: string) {
    '.' in text ==>
      if ':' in text then
        var last := LastColon(text);
        '.' !in text[..last + 1] && FourOctets(Split(text[last + 1..], '.'))
      else FourOctets(Split(text, '.'))
  }

  lemma {:induction false} CanonicalShort(t: string)
    requires Octet(t)
    ensures ScriptOctet(t)
  {
    DecimalUnique(t);
  }

  lemma {:induction false} QuadWords(tail: string)
    requires FourOctets(Split(tail, '.'))
    ensures var o := Split(tail, '.');
            ScriptQuad(tail) == Some([DecimalValue(o[0]), DecimalValue(o[1]), DecimalValue(o[2]), DecimalValue(o[3])])
  {
    var o := Split(tail, '.');
    CanonicalShort(o[0]);
    CanonicalShort(o[1]);
    CanonicalShort(o[2]);
    CanonicalShort(o[3]);
  }

  /** The halves agree: a dotted tail as two words, or as two groups. */
  lemma {:induction false} HalfAgrees(half: string, tail: string, a: string, b: string)
    requires Open(half) && NoUpper(half) && '.' !in half && tail != "" && ':' !in tail && ':' !in a && ':' !in b
    requires HexGroup(a) && HexGroup(b) && PartWords(tail, true) == Some([HexValue(a), HexValue(b)])
    ensures var groups := Groups(half + (a + ":" + b));
            PartsWords(Groups(half + tail)) == if HexGroups(groups) then Some(GroupValues(groups)) else None
  {
    GroupsTail(half, tail);
    SplitPlain(tail, ':');
    GroupsTail(half, a + ":" + b);
    SplitPair(a, b);
    BeforeWithin(half);
    DottedParts(Before(half), tail, a, b);
  }

  lemma {:induction false} BeforeWithin(half: string)
    requires Open(half) && NoUpper(half) && '.' !in half
    ensures NoDots(Before(half)) && LowerParts(Before(half))
  {
    if half != "" {
      var front := half[..|half| - 1];
      assert NoUpper(front) && '.' !in front;
      if front == "" {
        assert Before(half) == [""];
      } else {
        GroupsWithin(front);
      }
    }
  }

  lemma {:induction false} FillParsed(left: Option<seq<nat>>, right: Option<seq<nat>>, l: seq<string>, r: seq<string>, compressed: bool)
    requires left == if HexGroups(l) then Some(GroupValues(l)) else None
    requires right == if HexGroups(r) then Some(GroupValues(r)) else None
    ensures Fill(left, right, compressed) == Assemble(l, r, compressed)
  {
  }

  /** The browser's parser, on the halves. */
  function ParsedHalves(halves: seq<string>): Option<seq<nat>> {
    if |halves| == 1 then Assemble(Groups(halves[0]), [], false)
    else if |halves| == 2 then Assemble(Groups(halves[0]), Groups(halves[1]), true)
    else None
  }

  lemma {:induction false} ParsedByHalves(text: string)
    ensures ParseGroups(text) == ParsedHalves(SplitDouble(text))
  {
  }

  predicate PlainHalf(half: string) { NoUpper(half) && '.' !in half }

  lemma {:induction false} OneHalfAgrees(half: string, tail: string, a: string, b: string)
    requires Open(half) && PlainHalf(half) && tail != "" && ':' !in tail && ':' !in a && ':' !in b
    requires HexGroup(a) && HexGroup(b) && PartWords(tail, true) == Some([HexValue(a), HexValue(b)])
    ensures Fill(PartsWords(Groups(half + tail)), Some([]), false) == Assemble(Groups(half + (a + ":" + b)), [], false)
  {
    HalfAgrees(half, tail, a, b);
    FillParsed(PartsWords(Groups(half + tail)), Some([]), Groups(half + (a + ":" + b)), [], false);
  }

  lemma {:induction false} TwoHalvesAgree(first: string, half: string, tail: string, a: string, b: string)
    requires PlainHalf(first) && Open(half) && PlainHalf(half) && tail != "" && ':' !in tail && ':' !in a && ':' !in b
    requires HexGroup(a) && HexGroup(b) && PartWords(tail, true) == Some([HexValue(a), HexValue(b)])
    ensures Fill(PartsWords(Groups(first)), PartsWords(Groups(half + tail)), true)
            == Assemble(Groups(first), Groups(half + (a + ":" + b)), true)
  {
    HalfAgrees(half, tail, a, b);
    GroupsWithin(first);
    PlainParts(Groups(first));
    FillParsed(PartsWords(Groups(first)), PartsWords(Groups(half + tail)), Groups(first), Groups(half + (a + ":" + b)), true);
  }

  lemma {:induction false} HalvesAgree(halves: seq<string>, tail: string, a: string, b: string)
    requires |halves| >= 1 && Open(halves[|halves| - 1]) && forall i | 0 <= i < |halves| :: PlainHalf(halves[i])
    requires tail != "" && ':' !in tail && ':' !in a && ':' !in b && HexGroup(a) && HexGroup(b)
    requires PartWords(tail, true) == Some([HexValue(a), HexValue(b)])
    ensures ScriptHalves(Extended(halves, tail)) == ParsedHalves(Extended(halves, a + ":" + b))
  {
    if |halves| == 1 {
      OneHalfAgrees(halves[0], tail, a, b);
    } else if |halves| == 2 {
      TwoHalvesAgree(halves[0], halves[1], tail, a, b);
    }
  }

  lemma {:induction false} DottedAgrees(front: string, tail: string, a: string, b: string)
    requires front != "" && front[|front| - 1] == ':' && '.' !in front && NoUpper(front)
    requires Tail(tail) && Tail(a + ":" + b) && ':' !in tail && ':' !in a && ':' !in b && HexGroup(a) && HexGroup(b)
    requires PartWords(tail, true) == Some([HexValue(a), HexValue(b)])
    ensures ScriptWords(front + tail) == ParseGroups(front + (a + ":" + b))
  {
    var halves := SplitDouble(front);
    DoubleTail(front, tail);
    DoubleTail(front, a + ":" + b);
    LastOpen(front);
    forall i | 0 <= i < |halves| ensures PlainHalf(halves[i]) {
      HalvesWithin(front, halves[i]);
    }
    HalvesAgree(halves, tail, a, b);
    ParsedByHalves(front + (a + ":" + b));
  }

  lemma {:induction false} QuadChars(tail: string)
    requires FourOctets(Split(tail, '.'))
    ensures '.' in tail && forall i | 0 <= i < |tail| :: IsDigit(tail[i]) || tail[i] == '.'
  {
    var o := Split(tail, '.');
    if '.' !in tail {
      SplitPlain(tail, '.');
    }
    forall i | 0 <= i < |tail| ensures IsDigit(tail[i]) || tail[i] == '.' {
      JoinChars(o, '.', tail[i]);
      if tail[i] != '.' {
        var p :| p in o && tail[i] in p;
        assert p == o[0] || p == o[1] || p == o[2] || p == o[3];
      }
    }
  }

  lemma {:induction false} QuadPart(tail: string, hi: nat, lo: nat)
    requires FourOctets(Split(tail, '.'))
    requires var o := Split(tail, '.'); hi == Pair(o[0], o[1]) && lo == Pair(o[2], o[3])
    ensures PartWords(tail, true) == Some([hi, lo]) && hi < 65536 && lo < 65536
  {
    QuadChars(tail);
    QuadWords(tail);
  }

  lemma {:induction false} HexTail(hi: nat, lo: nat)
    requires hi < 65536 && lo < 65536
    ensures HexGroup(Hex(hi)) && HexGroup(Hex(lo)) && ':' !in Hex(hi) && ':' !in Hex(lo) && Tail(Hex(hi) + ":" + Hex(lo))
  {
    var a, b := Hex(hi), Hex(lo);
    PairIsTail(a, b);
  }

  lemma {:induction false} PairIsTail(a: string, b: string)
    requires a != "" && b != "" && ':' !in a && ':' !in b
    ensures Tail(a + ":" + b)
  {
    var t := a + ":" + b;
    assert a[0] in a;
    forall i | 0 < i < |t| && t[i] == ':' ensures t[i - 1] != ':' {
      if i == |a| {
        assert a[i - 1] in a;
      }
    }
  }

  lemma {:induction false} ColonFreeTail(tail: string)
    requires tail != "" && ':' !in tail
    ensures Tail(tail)
  {
    assert forall i | 0 <= i < |tail| :: tail[i] in tail;
  }

  lemma {:induction false} TailJoins(front: string, a: string, b: string)
    ensures front + a + ":" + b == front + (a + ":" + b)
  {
  }

  /** Text with colons and a quad at its end. */
  lemma {:induction false} QuadAgrees(front: string, tail: string, hi: nat, lo: nat, a: string, b: string)
    requires front != "" && front[|front| - 1] == ':' && '.' !in front && NoUpper(front)
    requires ':' !in tail && Tail(tail) && PartWords(tail, true) == Some([hi, lo])
    requires HexGroup(a) && HexGroup(b) && ':' !in a && ':' !in b && Tail(a + ":" + b) && HexValue(a) == hi && HexValue(b) == lo
    ensures ScriptWords(front + tail) == ParseGroups(front + a + ":" + b)
  {
    DottedAgrees(front, tail, a, b);
    TailJoins(front, a, b);
  }

  lemma {:induction false} RewrittenChars(front: string, hi: nat, lo: nat)
    requires ParseGroups(WithTail(front, hi, lo)).Some?
    ensures HexOrColon(front)
  {
    var plain := WithTail(front, hi, lo);
    ParsedChars(plain);
    assert forall i | 0 <= i < |front| :: plain[i] == front[i];
  }

  lemma {:induction false} TextChars(front: string, tail: string)
    requires HexOrColon(front) && (forall i | 0 <= i < |tail| :: IsDigit(tail[i]) || tail[i] == '.')
    ensures forall c | c in front + tail :: AddressChar(c)
  {
  }

  lemma {:induction false} DottedParse(text: string, front: string, tail: string, hi: nat, lo: nat)
    requires text == front + tail && front != "" && front[|front| - 1] == ':' && ':' !in tail && Unbracket(text) == text
    requires FourOctets(Split(tail, '.'))
    requires var o := Split(tail, '.'); hi == Pair(o[0], o[1]) && lo == Pair(o[2], o[3])
    ensures Parse(text) == ParseGroups(WithTail(front, hi, lo))
  {
    QuadChars(tail);
    assert '.' in text && ':' in text by {
      assert text[|front| - 1] == ':';
    }
    ReplaceDottedTail(front, tail, Split(tail, '.'));
    if ParseGroups(WithTail(front, hi, lo)).Some? {
      RewrittenChars(front, hi, lo);
      TextChars(front, tail);
    }
  }

  lemma {:induction false} StrictFront(front: string, tail: string, hi: nat, lo: nat)
    requires front != "" && front[|front| - 1] == ':' && ':' !in tail && '.' !in front && NoUpper(front)
    requires FourOctets(Split(tail, '.'))
    requires var o := Split(tail, '.'); hi == Pair(o[0], o[1]) && lo == Pair(o[2], o[3])
    ensures ScriptWords(front + tail) == ParseGroups(WithTail(front, hi, lo))
  {
    QuadPart(tail, hi, lo);
    QuadChars(tail);
    ColonFreeTail(tail);
    HexTail(hi, lo);
    QuadAgrees(front, tail, hi, lo, Hex(hi), Hex(lo));
  }

  lemma {:induction false} DottedFront(front: string, hi: nat, lo: nat)
    requires '.' in front
    ensures ParseGroups(WithTail(front, hi, lo)) == None
  {
    if ParseGroups(WithTail(front, hi, lo)).Some? {
      RewrittenChars(front, hi, lo);
    }
  }

  lemma {:induction false} StrictTail(text: string, front: string, tail: string)
    requires text == front + tail && front != "" && front[|front| - 1] == ':' && ':' !in tail && Unbracket(text) == text
    requires FourOctets(Split(tail, '.')) && NoUpper(front)
    ensures '.' !in front ==> ScriptWords(text) == Parse(text)
    ensures '.' in front ==> Parse(text) == None
  {
    var o := Split(tail, '.');
    var hi, lo := Pair(o[0], o[1]), Pair(o[2], o[3]);
    DottedParse(text, front, tail, hi, lo);
    if '.' in front {
      DottedFront(front, hi, lo);
    } else {
      StrictFront(front, tail, hi, lo);
    }
  }

  lemma {:induction false} LooseTail(text: string)
    requires ':' in text && '.' in text && Unbracket(text) == text && !FourOctets(Split(text[LastColon(text) + 1..], '.'))
    ensures Parse(text) == None
  {
    assert ReplaceDotted(text) == None;
  }

  /** With a colon: on texts with strict dots the script reads what the browser's parser
      reads; on all others that parser reads nothing. */
  lemma {:induction false} WordsAgreeIff(text: string)
    requires ':' in text && NoUpper(text) && Unbracket(text) == text
    ensures StrictDots(text) ==> ScriptWords(text) == Parse(text)
    ensures !StrictDots(text) ==> Parse(text) == None
  {
    if '.' !in text {
      ScriptPlain(text);
      PlainAddress(text);
    } else {
      var last := LastColon(text);
      assert text == text[..last + 1] + text[last + 1..];
      if FourOctets(Split(text[last + 1..], '.')) {
        assert NoUpper(text[..last + 1]);
        StrictTail(text, text[..last + 1], text[last + 1..]);
      } else {
        LooseTail(text);
      }
    }
  }

  function Unmapped6(words: Option<seq<nat>>): (r: Option<Literal>)
    requires words.Some? ==> |words.value| == 8 && Words(words.value, 16)
  {
    if words.None? then None else Some(Unmap(V6(words.value)))
  }

  /** `tailchromeAddress`. */
  function ScriptAddress(text: string): Option<Literal> {
    if ':' !in text then
      match ScriptQuad(text)
      case None => None
      case Some(octets) => Some(V4(octets))
    else
      ScriptWordsBound(text);
      Unmapped6(ScriptWords(text))
  }

  /** The strict reading of a literal, as the browser's parser and the helper read it. */
  function StrictAddress(text: string): Option<Literal> {
    if ':' !in text then
      if FourOctets(Split(text, '.')) then
        QuadWords(text);
        Some(V4(ScriptQuad(text).value))
      else None
    else Unmapped6(Parse(text))
  }

  // ---------- the texts the script reads ----------

  /** Four numbers of one to three digits, at most 255, leading zeros allowed. */
  predicate LooseQuad(text: string) {
    var o := Split(text, '.');
    |o| == 4 && ScriptOctet(o[0]) && ScriptOctet(o[1]) && ScriptOctet(o[2]) && ScriptOctet(o[3])
  }

  /** Hexadecimal groups, the last of which may be a quad. */
  predicate LooseHalf(parts: seq<string>) {
    forall i | 0 <= i < |parts| :: LowerGroup(parts[i]) || (i == |parts| - 1 && '.' in parts[i] && LooseQuad(parts[i]))
  }

  /** A quad stands for two groups. */
  function GroupCount(parts: seq<string>): nat { |parts| + if parts != [] && '.' in parts[|parts| - 1] then 1 else 0 }

  /** A literal up to leading zeros and to where a quad may stand: a quad, or eight groups,
      or fewer with one `::`, each half ending in at most one quad. */
  predicate LooseLiteral(text: string) {
    if ':' !in text then LooseQuad(text)
    else
      var halves := SplitDouble(text);
      if |halves| == 1 then LooseHalf(Groups(halves[0])) && GroupCount(Groups(halves[0])) == 8
      else
        |halves| == 2 && LooseHalf(Groups(halves[0])) && LooseHalf(Groups(halves[1]))
        && GroupCount(Groups(halves[0])) + GroupCount(Groups(halves[1])) < 8
  }

  function WordsIn(v: Option<seq<nat>>): nat { if v.Some? then |v.value| else 0 }

  function TotalWords(values: seq<Option<seq<nat>>>): nat {
    if values == [] then 0 else TotalWords(values[..|values| - 1]) + WordsIn(values[|values| - 1])
  }

  lemma {:induction false} AllWordsIff(values: seq<Option<seq<nat>>>)
    ensures AllWords(values).Some? <==> forall i | 0 <= i < |values| :: values[i].Some?
    ensures AllWords(values).Some? ==> |AllWords(values).value| == TotalWords(values)
  {
    if values != [] {
      AllWordsIff(values[..|values| - 1]);
    }
  }

  lemma {:induction false} OneWordEach(values: seq<Option<seq<nat>>>)
    requires forall i | 0 <= i < |values| :: WordsIn(values[i]) == 1
    ensures TotalWords(values) == |values|
  {
    if values != [] {
      OneWordEach(values[..|values| - 1]);
    }
  }

  lemma {:induction false} PartReads(part: string, last: bool)
    ensures PartWords(part, last).Some? <==> LowerGroup(part) || (last && '.' in part && LooseQuad(part))
    ensures PartWords(part, last).Some? ==> WordsIn(PartWords(part, last)) == if last && '.' in part then 2 else 1
  {
    if LowerGroup(part) {
      GroupHasNoDot(part);
    }
  }

  lemma {:induction false} GroupHasNoDot(part: string)
    requires HexGroup(part)
    ensures '.' !in part
  {
    assert !IsHex('.');
  }

  lemma {:induction false} HalfReads(parts: seq<string>)
    ensures PartsWords(parts).Some? <==> LooseHalf(parts)
    ensures PartsWords(parts).Some? ==> |PartsWords(parts).value| == GroupCount(parts)
  {
    var values := PartValues(parts);
    AllWordsIff(values);
    forall i | 0 <= i < |parts|
      ensures values[i].Some? <==> LowerGroup(parts[i]) || (i == |parts| - 1 && '.' in parts[i] && LooseQuad(parts[i]))
      ensures values[i].Some? ==> WordsIn(values[i]) == if i == |parts| - 1 && '.' in parts[i] then 2 else 1
    {
      PartReads(parts[i], i == |parts| - 1);
    }
    if AllWords(values).Some? && parts != [] {
      OneWordEach(values[..|parts| - 1]);
    }
  }

  lemma {:induction false} WordsRead(text: string)
    requires ':' in text
    ensures ScriptWords(text).Some? <==> LooseLiteral(text)
  {
    var halves := SplitDouble(text);
    HalfReads(Groups(halves[0]));
    if |halves| == 2 {
      HalfReads(Groups(halves[1]));
    }
  }

  /** The script reads exactly the loose literals. */
  lemma {:induction false} ScriptReadsIff(text: string)
    ensures ScriptAddress(text).Some? <==> LooseLiteral(text)
  {
    if ':' in text {
      WordsRead(text);
    }
  }

  /** The script and the strict parsers disagree on a text exactly when it is a loose
      literal some of whose dots are not in a canonical quad at its end; then the script
      alone reads it. */
  lemma {:induction false} ScriptAgreesIff(text: string)
    requires NoUpper(text) && Unbracket(text) == text
    ensures StrictAddress(text).Some? ==> ScriptAddress(text) == StrictAddress(text)
    ensures ScriptAddress(text) != StrictAddress(text) <==> LooseLiteral(text) && !StrictDots(text)
  {
    ScriptReadsIff(text);
    if ':' in text {
      WordsAgreeIff(text);
    } else if '.' !in text {
      SplitPlain(text, '.');
    } else if FourOctets(Split(text, '.')) {
      QuadWords(text);
    }
  }

  lemma {:induction false} OneValue(v: Option<seq<nat>>)
    ensures AllWords([v]) == v
  {
    assert [v][..0] == [];
    if v.Some? {
      assert [] + v.value == v.value;
    }
  }

  lemma {:induction false} OnePart(part: string)
    ensures PartsWords([part]) == PartWords(part, true)
  {
    OneValue(PartWords(part, true));
    assert PartValues([part]) == [PartWords(part, true)];
  }

  lemma {:induction false} QuadThenColons(quad: string, text: string)
    requires text == quad + "::" && quad != "" && ':' !in quad && PartWords(quad, true).Some? && '.' in quad
    ensures ScriptWords(text).Some?
  {
    DoubleEnd(quad);
    SplitPlain(quad, ':');
    OnePart(quad);
    assert PartValues([]) == [] && PartsWords([]) == Some([]);
    assert Groups("") == [] && Groups(quad) == [quad];
  }

  /** A text that only the script reads: a quad before `::`. */
  lemma {:induction false} ScriptReadsMore(quad: string, o: string, text: string)
    requires o == "1" && quad == Join([o, o, o, o], '.') && text == quad + "::"
    ensures ScriptWords(text).Some? && !StrictDots(text)
  {
    OneIsOctet(o);
    QuadOfOnes(quad, o);
    QuadThenColons(quad, text);
    EndsInColons(quad, text);
  }

  lemma {:induction false} OneIsOctet(o: string)
    requires o == "1"
    ensures Octet(o) && '.' !in o && ':' !in o
  {
    assert o[..0] == "" && DecimalValue("") == 0;
  }

  lemma {:induction false} QuadOfOnes(quad: string, o: string)
    requires Octet(o) && '.' !in o && ':' !in o && quad == Join([o, o, o, o], '.')
    ensures FourOctets(Split(quad, '.')) && ':' !in quad && '.' in quad && Tail(quad) && PartWords(quad, true).Some?
  {
    SplitJoin([o, o, o, o], '.');
    QuadChars(quad);
    QuadWords(quad);
    assert ':' !in quad by {
      if ':' in quad {
        JoinChars([o, o, o, o], '.', ':');
      }
    }
    ColonFreeTail(quad);
  }

  lemma {:induction false} DoubleEnd(half: string)
    requires half != "" && ':' !in half
    ensures SplitDouble(half + "::") == [half, ""]
  {
    ColonFreeTail(half);
    assert half[|half| - 1] in half;
    SplitDoubleAt(half, "");
    assert half + "::" + "" == half + "::";
  }

  lemma {:induction false} EndsInColons(quad: string, text: string)
    requires text == quad + "::" && '.' in quad
    ensures !StrictDots(text)
  {
    LastColonIs(text, "");
    assert text + "" == text;
    assert text[LastColon(text) + 1..] == "";
    SplitPlain("", '.');
    assert '.' in text;
  }

  // ---------- the script, by its loops ----------

  method ReadQuad(text: string) returns (result: Option<seq<nat>>)
    ensures result == ScriptQuad(text)
  {
    var parts := Split(text, '.');
    if |parts| != 4 {
      return None;
    }
    var read: seq<nat> := [];
    for i := 0 to 4
      invariant |read| == i && forall j | 0 <= j < i :: ScriptOctet(parts[j]) && read[j] == DecimalValue(parts[j])
    {
      if !ScriptOctet(parts[i]) {
        return None;
      }
      read := read + [DecimalValue(parts[i])];
    }
    assert read == [read[0], read[1], read[2], read[3]];
    return Some(read);
  }

  method ReadPart(part: string, last: bool) returns (result: Option<seq<nat>>)
    ensures result == PartWords(part, last)
  {
    if '.' in part && last {
      var quad := ReadQuad(part);
      if quad.None? {
        return None;
      }
      return Some([quad.value[0] * 256 + quad.value[1], quad.value[2] * 256 + quad.value[3]]);
    }
    if !LowerGroup(part) {
      return None;
    }
    return Some([HexValue(part)]);
  }

  /** Once a part is refused, nothing can be read. */
  lemma {:induction false} RefusedPart(values: seq<Option<seq<nat>>>, i: nat)
    requires i < |values| && values[i].None?
    ensures AllWords(values) == None
  {
    if i < |values| - 1 {
      RefusedPart(values[..|values| - 1], i);
    }
  }

  /** `words`: the loop over the parts of one half. */
  method ReadHalf(half: string) returns (result: Option<seq<nat>>)
    ensures result == PartsWords(Groups(half))
  {
    var parts := Groups(half);
    ghost var values := PartValues(parts);
    var words: seq<nat> := [];
    for i := 0 to |parts|
      invariant AllWords(values[..i]) == Some(words)
    {
      var part := ReadPart(parts[i], i == |parts| - 1);
      if part.None? {
        RefusedPart(values, i);
        return None;
      }
      assert values[..i + 1][..i] == values[..i];
      words := words + part.value;
    }
    assert values[..|parts|] == values;
    return Some(words);
  }

  method ReadWords6(text: string) returns (result: Option<seq<nat>>)
    ensures result == ScriptWords(text)
  {
    var halves := SplitDouble(text);
    if |halves| > 2 {
      return None;
    }
    var left := ReadHalf(halves[0]);
    var right: Option<seq<nat>> := Some([]);
    if |halves| == 2 {
      right := ReadHalf(halves[1]);
    }
    result := Fill(left, right, |halves| == 2);
  }

  method TailchromeAddress(host: string) returns (result: Option<Literal>)
    ensures result == ScriptAddress(host)
  {
    if ':' !in host {
      var quad := ReadQuad(host);
      if quad.None? {
        return None;
      }
      return Some(V4(quad.value));
    }
    var words := ReadWords6(host);
    ScriptWordsBound(host);
    return Unmapped6(words);
  }

  /** The text the helper prints for a network's address: any strict text of it. */
  ghost predicate Prints(text: string, route: Route) {
    NoUpper(text) && Unbracket(text) == text && StrictAddress(text) == Some(route.address)
  }

  lemma {:induction false} PrintedReads(text: string, route: Route)
    requires Prints(text, route)
    ensures ScriptAddress(text) == Some(route.address)
  {
    ScriptAgreesIff(text);
  }

  /** One network, parsed from its text. */
  method MatchPrinted(text: string, route: Route, ip: Literal) returns (same: bool)
    requires Prints(text, route) && !Is4In6(route.address)
    ensures same <==> Contains(route, Unmap(ip))
  {
    var base := TailchromeAddress(text);
    PrintedReads(text, route);
    same := MatchNetwork(ip, Prefix(base.value, route.bits));
  }

  /** The loop over the listed networks. */
  method FindPrinted(networks: seq<Route>, textOf: Route -> string, ip: Literal) returns (proxied: bool)
    requires forall i | 0 <= i < |networks| :: Prints(textOf(networks[i]), networks[i]) && !Is4In6(networks[i].address)
    ensures proxied <==> exists i :: 0 <= i < |networks| && Contains(networks[i], Unmap(ip))
  {
    for i := 0 to |networks|
      invariant forall k | 0 <= k < i :: !Contains(networks[k], Unmap(ip))
    {
      var same := MatchPrinted(textOf(networks[i]), networks[i], ip);
      if same {
        return true;
      }
    }
    return false;
  }

  /** The host as the script sees it: lower case, without one trailing dot and without the
      brackets of a literal. */
  function PacHost(raw: string): string { Unbracket(StripDot(Lower(raw))) }

  /** The script, from network map and raw host to decision: an address literal, in any form
      the script reads, goes to the proxy exactly when the address lies in a tailnet range
      or in an approved subnet route. Other hosts are decided by name. */
  method FindProxyForHost(nm: NetMap, prefs: Prefs, textOf: Route -> string, raw: string) returns (proxied: Option<bool>)
    requires forall route: Route | !Is4In6(route.address) :: Prints(textOf(route), route)
    ensures proxied.Some? <==> LooseLiteral(PacHost(raw))
    ensures proxied.Some? ==> ScriptAddress(PacHost(raw)).Some? && var ip := Unmap(ScriptAddress(PacHost(raw)).value);
              proxied.value <==> InTailnetRanges(ip) || (prefs.routeAll && ApprovedByOther(nm, ip))
  {
    var host := PacHost(raw);
    ScriptReadsIff(host);
    var address := TailchromeAddress(host);
    if address.None? {
      return None;
    }
    var networks := Networks(nm, prefs);
    forall i | 0 <= i < |networks| ensures !Is4In6(networks[i].address) {
      assert networks[i] in networks;
      assert Listed(nm, prefs, networks[i]);
    }
    var decision := FindPrinted(networks, textOf, address.value);
    DecisionIs(nm, prefs, networks, Unmap(address.value));
    return Some(decision);
  }
}
