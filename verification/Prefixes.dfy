/** Address prefixes as arithmetic. An address is a sequence of fixed-width words;
    its value is the number those words spell, and a prefix of length `bits` is the
    number formed by the top `bits` bits. The browser's floor-division test, the
    PAC script's shift test and the helper's integer test are all proved against it. */
module Prefixes {
  function Pow2(n: nat): (p: nat)
    ensures p >= 1
  {
    if n == 0 then 1 else 2 * Pow2(n - 1)
  }

  lemma {:induction false} Pow2Add(a: nat, b: nat)
    ensures Pow2(a + b) == Pow2(a) * Pow2(b)
  {
    if a > 0 {
      Pow2Add(a - 1, b);
      assert 2 * (Pow2(a - 1) * Pow2(b)) == (2 * Pow2(a - 1)) * Pow2(b);
    }
  }

  lemma {:induction false} MulLe(a: int, b: int, d: int)
    requires a <= b && 0 <= d
    ensures a * d <= b * d
  {
  }

  lemma {:induction false} Distrib(a: nat, b: nat, c: nat)
    ensures (a + b) * c == a * c + b * c
  {
  }

  lemma {:induction false} Assoc(a: nat, b: nat, c: nat)
    ensures (a * b) * c == a * (c * b)
  {
  }

  /** `Math.floor(x / d)`. */
  function Quot(x: nat, d: nat): (q: nat)
    requires d > 0
    ensures q * d <= x < q * d + d
  {
    if x < d then 0 else Quot(x - d, d) + 1
  }

  lemma {:induction false} QuotIs(x: nat, d: nat, q: nat)
    requires d > 0 && q * d <= x < q * d + d
    ensures Quot(x, d) == q
  {
    var p := Quot(x, d);
    if p < q {
      MulLe(p + 1, q, d);
    }
    if q < p {
      MulLe(q + 1, p, d);
    }
  }

  predicate Words(ws: seq<nat>, width: nat) {
    forall i | 0 <= i < |ws| :: ws[i] < Pow2(width)
  }

  /** The number spelled by the words, most significant first. */
  function Value(ws: seq<nat>, width: nat): nat {
    if |ws| == 0 then 0 else ws[0] * Pow2(width * (|ws| - 1)) + Value(ws[1..], width)
  }

  lemma {:induction false} ValueBound(ws: seq<nat>, width: nat)
    requires Words(ws, width)
    ensures Value(ws, width) < Pow2(width * |ws|)
  {
    if |ws| > 0 {
      ValueBound(ws[1..], width);
      var m := Pow2(width * (|ws| - 1));
      assert width * |ws| == width + width * (|ws| - 1);
      Pow2Add(width, width * (|ws| - 1));
      MulLe(ws[0] + 1, Pow2(width), m);
      Distrib(ws[0], 1, m);
    }
  }

  /** The number formed by the top `bits` bits of a `size`-bit number. */
  function Top(x: nat, size: nat, bits: nat): nat
    requires bits <= size
  {
    Quot(x, Pow2(size - bits))
  }

  predicate SamePrefix(a: seq<nat>, b: seq<nat>, width: nat, bits: nat)
    requires |a| == |b| && bits <= width * |a|
  {
    Top(Value(a, width), width * |a|, bits) == Top(Value(b, width), width * |b|, bits)
  }

  /** Quotient of `h * (d*k) + t` by `d`, the head word above a partial tail. */
  lemma {:induction false} QuotBelow(h: nat, t: nat, d: nat, k: nat)
    requires d > 0 && t < d * k
    ensures Quot(h * (d * k) + t, d) == h * k + Quot(t, d) && Quot(t, d) < k
  {
    var q, x := Quot(t, d), h * (d * k);
    Assoc(h, k, d);
    Distrib(h * k, q, d);
    assert (h * k + q) * d == x + q * d;
    QuotIs(x + t, d, h * k + q);
    if q >= k {
      MulLe(k, q, d);
    }
  }

  /** Quotient of `h * m + t` by `m*s`: only the head word survives. */
  lemma {:induction false} QuotAbove(h: nat, t: nat, m: nat, s: nat)
    requires m > 0 && s > 0 && t < m
    ensures m * s > 0 && Quot(h * m + t, m * s) == Quot(h, s)
  {
    var q := Quot(h, s);
    MulLe(q * s, h, m);
    Assoc(q, s, m);
    MulLe(h + 1, q * s + s, m);
    Distrib(h, 1, m);
    Distrib(q * s, s, m);
    QuotAboveBounds(h * m, t, m, q * (m * s), m * s, (q * s + s) * m);
    QuotIs(h * m + t, m * s, q);
  }

  lemma {:induction false} QuotAboveBounds(hm: nat, t: nat, m: nat, low: nat, step: nat, high: nat)
    requires low <= hm && t < m && hm + m <= high && high == low + step
    ensures low <= hm + t < low + step
  {
  }

  lemma {:induction false} QuotQuot(x: nat, d: nat, e: nat)
    requires d > 0 && e > 0
    ensures d * e > 0 && Quot(x, d * e) == Quot(Quot(x, d), e)
  {
    var q := Quot(x, d);
    QuotAbove(q, x - q * d, d, e);
  }

  lemma {:induction false} QuotientSplit(h1: nat, q1: nat, h2: nat, q2: nat, k: nat)
    requires q1 < k && q2 < k
    ensures h1 * k + q1 == h2 * k + q2 <==> h1 == h2 && q1 == q2
  {
    if h1 < h2 {
      MulLe(h1 + 1, h2, k);
    } else if h2 < h1 {
      MulLe(h2 + 1, h1, k);
    }
  }

  /** One word of the comparison, when the prefix covers the whole head word. */
  lemma {:induction false} HeadCovered(a: seq<nat>, b: seq<nat>, width: nat, bits: nat)
    requires |a| == |b| > 0 && Words(a, width) && Words(b, width)
    requires width <= bits <= width * |a|
    ensures bits - width <= width * (|a| - 1)
    ensures SamePrefix(a, b, width, bits)
            <==> a[0] == b[0] && SamePrefix(a[1..], b[1..], width, bits - width)
  {
    var size := width * (|a| - 1);
    assert width * |a| == width + size;
    var d, k := Pow2(size - (bits - width)), Pow2(bits - width);
    Pow2Add(size - (bits - width), bits - width);
    assert Pow2(size) == d * k;
    ValueBound(a[1..], width);
    ValueBound(b[1..], width);
    var ta, tb := Value(a[1..], width), Value(b[1..], width);
    QuotBelow(a[0], ta, d, k);
    QuotBelow(b[0], tb, d, k);
    QuotientSplit(a[0], Quot(ta, d), b[0], Quot(tb, d), k);
  }

  /** One word of the comparison, when the prefix ends inside the head word. */
  lemma {:induction false} HeadPartial(a: seq<nat>, b: seq<nat>, width: nat, bits: nat)
    requires |a| == |b| > 0 && Words(a, width) && Words(b, width)
    requires bits < width && bits <= width * |a|
    ensures SamePrefix(a, b, width, bits)
            <==> Quot(a[0], Pow2(width - bits)) == Quot(b[0], Pow2(width - bits))
  {
    var size := width * (|a| - 1);
    assert width * |a| == width + size;
    var m, s := Pow2(size), Pow2(width - bits);
    Pow2Add(size, width - bits);
    assert width * |a| - bits == size + (width - bits);
    ValueBound(a[1..], width);
    ValueBound(b[1..], width);
    QuotAbove(a[0], Value(a[1..], width), m, s);
    QuotAbove(b[0], Value(b[1..], width), m, s);
  }

  lemma {:induction false} SamePrefixZero(a: seq<nat>, b: seq<nat>, width: nat)
    requires |a| == |b| && Words(a, width) && Words(b, width)
    ensures SamePrefix(a, b, width, 0)
  {
    ValueBound(a, width);
    ValueBound(b, width);
  }

  /** Words that agree up to position `i` agree on a prefix iff the rest does. */
  lemma {:induction false} SkipEqual(a: seq<nat>, b: seq<nat>, width: nat, bits: nat, i: nat)
    requires |a| == |b| && Words(a, width) && Words(b, width)
    requires bits <= width * |a| && i <= |a| && i * width <= bits
    requires a[..i] == b[..i]
    ensures bits - i * width <= width * (|a| - i)
    ensures SamePrefix(a, b, width, bits) <==> SamePrefix(a[i..], b[i..], width, bits - i * width)
  {
    if i > 0 {
      assert i * width == width + (i - 1) * width;
      assert (i - 1) * width >= 0;
      HeadCovered(a, b, width, bits);
      assert a[0] == a[..i][0] == b[..i][0] == b[0];
      assert a[1..][..i - 1] == a[..i][1..] == b[..i][1..] == b[1..][..i - 1];
      SkipEqual(a[1..], b[1..], width, bits - width, i - 1);
      assert a[1..][i - 1..] == a[i..] && b[1..][i - 1..] == b[i..];
    } else {
      assert a[0..] == a && b[0..] == b;
    }
  }

  /** One iteration of a word-wise test: comparing the kept bits of word `i` decides
      the prefix when they differ or when nothing is left, and otherwise extends the
      agreement by one word. */
  lemma {:induction false} WordStep(a: seq<nat>, b: seq<nat>, width: nat, bits: nat, i: nat)
    requires |a| == |b| && Words(a, width) && Words(b, width)
    requires bits <= width * |a| && i < |a| && i * width < bits
    requires a[..i] == b[..i]
    ensures var left := bits - i * width;
            var scale := if left < width then Pow2(width - left) else 1;
            && (Quot(a[i], scale) != Quot(b[i], scale) ==> !SamePrefix(a, b, width, bits))
            && (Quot(a[i], scale) == Quot(b[i], scale) && left <= width ==> SamePrefix(a, b, width, bits))
            && (Quot(a[i], scale) == Quot(b[i], scale) && left > width ==> a[..i + 1] == b[..i + 1])
  {
    var left := bits - i * width;
    SkipEqual(a, b, width, bits, i);
    if left < width {
      HeadPartial(a[i..], b[i..], width, left);
    } else {
      QuotOne(a[i]);
      QuotOne(b[i]);
      HeadCovered(a[i..], b[i..], width, left);
      if left == width {
        SamePrefixZero(a[i..][1..], b[i..][1..], width);
      }
    }
  }

  /** A longer common prefix contains every shorter one. */
  lemma {:induction false} SamePrefixShorter(a: seq<nat>, b: seq<nat>, width: nat, long: nat, short: nat)
    requires |a| == |b| && short <= long <= width * |a|
    requires SamePrefix(a, b, width, long)
    ensures SamePrefix(a, b, width, short)
  {
    var size := width * |a|;
    var d, e := Pow2(size - long), Pow2(long - short);
    Pow2Add(size - long, long - short);
    assert size - short == (size - long) + (long - short);
    QuotQuot(Value(a, width), d, e);
    QuotQuot(Value(b, width), d, e);
  }

  /** Two prefixes share an address exactly when their networks agree on the
      shorter of the two lengths (section 2.3 of RFC 4291). */
  lemma {:induction false} OverlapAtShorter(a: seq<nat>, p: nat, b: seq<nat>, q: nat, width: nat)
    requires |a| == |b| && Words(a, width) && Words(b, width)
    requires p <= width * |a| && q <= width * |a|
    ensures (exists x :: |x| == |a| && Words(x, width)
                      && SamePrefix(x, a, width, p) && SamePrefix(x, b, width, q))
            <==> SamePrefix(a, b, width, if p < q then p else q)
  {
    var short := if p < q then p else q;
    if x :| |x| == |a| && Words(x, width) && SamePrefix(x, a, width, p) && SamePrefix(x, b, width, q) {
      SamePrefixShorter(x, a, width, p, short);
      SamePrefixShorter(x, b, width, q, short);
    }
    if SamePrefix(a, b, width, short) {
      var x := if p < q then b else a;
      assert SamePrefix(x, a, width, p) && SamePrefix(x, b, width, q);
    }
  }

  /** The browser's test: words compared by floor division, sixteen bits at a time. */
  method PrefixMatches(a: seq<nat>, b: seq<nat>, bits: nat) returns (same: bool)
    requires |a| == |b| == 8 && Words(a, 16) && Words(b, 16)
    requires bits <= 128
    ensures same <==> SamePrefix(a, b, 16, bits)
  {
    SamePrefixZero(a, b, 16);
    var rest: int, i := bits, 0;
    while rest > 0
      invariant 0 <= i <= 8 && rest == bits - 16 * i
      invariant if rest > 0 then a[..i] == b[..i] else SamePrefix(a, b, 16, bits)
      decreases rest
    {
      var scale := Pow2(16 - if rest < 16 then rest else 16);
      WordStep(a, b, 16, bits, i);
      if Quot(a[i], scale) != Quot(b[i], scale) {
        return false;
      }
      i, rest := i + 1, rest - 16;
    }
    return true;
  }

  /** The app PAC's test: words of either width compared by an unsigned shift, with
      the remaining bits reduced by what each word consumed. */
  method PacPrefixMatches(address: seq<nat>, base: seq<nat>, prefix: nat, width: nat) returns (same: bool)
    requires |address| == |base| && width > 0 && Words(address, width) && Words(base, width)
    requires prefix <= width * |address|
    ensures same <==> SamePrefix(address, base, width, prefix)
  {
    SamePrefixZero(address, base, width);
    var bits, j := prefix, 0;
    while j < |address| && bits > 0
      invariant 0 <= j <= |address|
      invariant if bits > 0 then address[..j] == base[..j] && bits == prefix - j * width
                else SamePrefix(address, base, width, prefix)
      decreases |address| - j
    {
      var take := if bits < width then bits else width;
      var shift := width - take;
      WordStep(address, base, width, prefix, j);
      if Quot(address[j], Pow2(shift)) != Quot(base[j], Pow2(shift)) {
        return false;
      }
      assert (j + 1) * width == j * width + width;
      bits := bits - take;
      j := j + 1;
    }
    return true;
  }

  /** Clearing every bit after the prefix, word by word and in place. */
  method MaskNetwork(network: array<nat>, prefixLength: nat)
    requires network.Length == 8 && Words(network[..], 16) && prefixLength <= 128
    modifies network
    ensures Words(network[..], 16)
    ensures network[..] == Masked(old(network[..]), prefixLength)
  {
    ghost var before := network[..];
    for i := 0 to 8
      invariant forall j | 0 <= j < i :: network[j] == MaskedWord(before[j], prefixLength, j)
      invariant forall j | i <= j < 8 :: network[j] == before[j]
    {
      var scale := Pow2(16 - KeptBits(prefixLength, i));
      network[i] := Quot(network[i], scale) * scale;
    }
    MaskedWords(before, prefixLength);
    assert network[..] == Masked(before, prefixLength);
  }

  lemma {:induction false} QuotScale(x: nat, d: nat)
    requires d > 0
    ensures Quot(x, d) * d <= x && Quot(Quot(x, d) * d, d) == Quot(x, d)
  {
    QuotIs(Quot(x, d) * d, d, Quot(x, d));
  }

  lemma {:induction false} QuotOne(x: nat)
    ensures Quot(x, 1) == x
  {
    QuotIs(x, 1, x);
  }

  /** The bits of word `i` that a prefix keeps. */
  function KeptBits(prefixLength: nat, i: nat): (b: nat)
    ensures b <= 16
  {
    if prefixLength < i * 16 then 0
    else if prefixLength - i * 16 < 16 then prefixLength - i * 16 else 16
  }

  function MaskedWord(w: nat, prefixLength: nat, i: nat): nat {
    var scale := Pow2(16 - KeptBits(prefixLength, i));
    Quot(w, scale) * scale
  }

  function Masked(ws: seq<nat>, prefixLength: nat): (r: seq<nat>)
    ensures |r| == |ws|
  {
    seq(|ws|, i requires 0 <= i < |ws| => MaskedWord(ws[i], prefixLength, i))
  }

  lemma {:induction false} MaskedWords(ws: seq<nat>, prefixLength: nat)
    requires Words(ws, 16)
    ensures Words(Masked(ws, prefixLength), 16)
  {
  }

  lemma {:induction false} MaskedHead(w: nat, prefixLength: nat, i: nat)
    requires i * 16 < prefixLength
    ensures var m, left := MaskedWord(w, prefixLength, i), prefixLength - i * 16;
            if left < 16 then Quot(m, Pow2(16 - left)) == Quot(w, Pow2(16 - left)) else m == w
  {
    QuotScale(w, Pow2(16 - KeptBits(prefixLength, i)));
    QuotOne(w);
  }

  /** Two words agree on what a prefix keeps of them. */
  predicate WordAgrees(m: nat, w: nat, left: int) {
    left > 0 ==> if left < 16 then Quot(m, Pow2(16 - left)) == Quot(w, Pow2(16 - left)) else m == w
  }

  lemma {:induction false} WordsAgree(m: seq<nat>, ws: seq<nat>, bits: nat, i: nat)
    requires |m| == |ws| == 8 && Words(m, 16) && Words(ws, 16) && bits <= 128 && i <= 8 && i * 16 <= bits
    requires forall j | i <= j < 8 :: WordAgrees(m[j], ws[j], bits - j * 16)
    ensures SamePrefix(m[i..], ws[i..], 16, bits - i * 16)
    decreases 8 - i
  {
    var left := bits - i * 16;
    if i == 8 || left == 0 {
      SamePrefixZero(m[i..], ws[i..], 16);
    } else {
      assert WordAgrees(m[i], ws[i], left);
      if left < 16 {
        HeadPartial(m[i..], ws[i..], 16, left);
      } else {
        HeadCovered(m[i..], ws[i..], 16, left);
        WordsAgree(m, ws, bits, i + 1);
        assert m[i..][1..] == m[i + 1..] && ws[i..][1..] == ws[i + 1..];
      }
    }
  }

  /** A masked network lies in its own prefix ... */
  lemma {:induction false} MaskedSamePrefix(ws: seq<nat>, prefixLength: nat)
    requires |ws| == 8 && Words(ws, 16) && prefixLength <= 128
    ensures |Masked(ws, prefixLength)| == 8
    ensures SamePrefix(Masked(ws, prefixLength), ws, 16, prefixLength)
  {
    var m := Masked(ws, prefixLength);
    MaskedWords(ws, prefixLength);
    forall j | 0 <= j < 8 ensures WordAgrees(m[j], ws[j], prefixLength - j * 16) {
      if j * 16 < prefixLength {
        MaskedHead(ws[j], prefixLength, j);
      }
    }
    WordsAgree(m, ws, prefixLength, 0);
    assert m[0..] == m && ws[0..] == ws;
  }

  /** ... so masking keeps exactly the same members. */
  lemma {:induction false} MaskingKeepsMembers(network: seq<nat>, prefixLength: nat, x: seq<nat>)
    requires |network| == |x| == 8 && Words(network, 16) && Words(x, 16) && prefixLength <= 128
    ensures |Masked(network, prefixLength)| == 8
    ensures SamePrefix(x, Masked(network, prefixLength), 16, prefixLength)
            <==> SamePrefix(x, network, 16, prefixLength)
  {
    MaskedSamePrefix(network, prefixLength);
  }
}
