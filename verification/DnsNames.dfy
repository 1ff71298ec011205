/** Names that reach the routing policy: DNS routes, the MagicDNS suffix, short host
    names and the user's split-tunnel domains. */
module DnsNames {
  import opened Text

  predicate NoDuplicates<T(==)>(s: seq<T>) {
    forall i, j | 0 <= i < j < |s| :: s[i] != s[j]
  }

  // ---------- MagicDNS suffix ----------

  predicate SuffixChar(c: char) {
    'a' <= c <= 'z' || 'A' <= c <= 'Z' || IsDigit(c) || c == '.' || c == '-'
  }

  predicate SuffixText(s: string) {
    s != "" && forall i | 0 <= i < |s| :: SuffixChar(s[i])
  }

  /** `sanitizeMagicDNSSuffix`. */
  function SanitizeSuffix(suffix: string): (r: string)
    ensures r == "" || SuffixText(r)
  {
    var stripped := StripDot(Lower(suffix));
    if SuffixText(stripped) then stripped else ""
  }

  lemma {:induction false} LowerOfStripped(s: string)
    ensures Lower(StripDot(Lower(s))) == StripDot(Lower(s))
  {
    var low, t := Lower(s), StripDot(Lower(s));
    assert forall i | 0 <= i < |t| :: t[i] == low[i];
  }

  /** A sanitized suffix is sanitized to itself exactly when it does not end in a dot. */
  lemma {:induction false} SuffixAgain(once: string)
    requires SuffixText(once) && Lower(once) == once
    ensures SanitizeSuffix(once) == once <==> once[|once| - 1] != '.'
  {
    if once[|once| - 1] == '.' {
      assert StripDot(once) != once;
    }
  }

  lemma {:induction false} TwoDots(suffix: string)
    requires StripDot(Lower(suffix)) != ""
    ensures var once := StripDot(Lower(suffix)); once[|once| - 1] == '.' <==> EndsWith(suffix, "..")
  {
    var n, low := |suffix|, Lower(suffix);
    if n >= 2 {
      assert suffix[n - 2..] == [suffix[n - 2], suffix[n - 1]];
      assert low[n - 1] == '.' <==> suffix[n - 1] == '.';
      assert low[n - 2] == '.' <==> suffix[n - 2] == '.';
    }
  }

  lemma {:induction false} UsableSuffix(suffix: string)
    requires EndsWith(suffix, "..")
    ensures SuffixText(StripDot(Lower(suffix))) <==> SuffixText(suffix)
  {
    var n, low := |suffix|, Lower(suffix);
    assert suffix[n - 2..][1] == '.';
    assert low[n - 1] == '.' && StripDot(low) == low[..n - 1];
    assert forall i | 0 <= i < n :: SuffixChar(low[i]) <==> SuffixChar(suffix[i]);
    if SuffixText(low[..n - 1]) {
      assert forall i | 0 <= i < n - 1 :: low[i] == low[..n - 1][i];
    }
  }

  /** Sanitizing a suffix twice changes it exactly when it consists of suffix characters and
      ends in two dots, since only one is stripped each time. */
  lemma {:induction false} SuffixFixedPoint(suffix: string)
    ensures SanitizeSuffix(SanitizeSuffix(suffix)) == SanitizeSuffix(suffix)
            <==> !(SuffixText(suffix) && EndsWith(suffix, ".."))
  {
    var once := SanitizeSuffix(suffix);
    if EndsWith(suffix, "..") {
      UsableSuffix(suffix);
    }
    if once == "" {
      assert Lower("") == "" && StripDot("") == "";
    } else {
      LowerOfStripped(suffix);
      SuffixAgain(once);
      TwoDots(suffix);
    }
  }

  // ---------- DNS names ----------

  predicate LabelChar(c: char) { 'a' <= c <= 'z' || IsDigit(c) }

  /** One label of at most 63 characters, with hyphens only inside. */
  predicate Label(l: string) {
    1 <= |l| <= 63 && LabelChar(l[0]) && LabelChar(l[|l| - 1])
    && forall i | 0 <= i < |l| :: LabelChar(l[i]) || l[i] == '-'
  }

  predicate Labels(ls: seq<string>) {
    forall i | 0 <= i < |ls| :: Label(ls[i])
  }

  predicate Numeric(s: string) {
    forall i | 0 <= i < |s| :: IsDigit(s[i]) || s[i] == '.'
  }

  predicate DnsText(name: string) {
    name != "" && |name| <= 253 && !Numeric(name) && Labels(Split(name, '.'))
  }

  /** `sanitizeDNSName`. */
  function SanitizeName(input: string): Option<string> {
    var name := StripDot(Lower(input));
    if DnsText(name) then Some(name) else None
  }

  lemma {:induction false} JoinedLabels(ls: seq<string>)
    requires |ls| >= 1 && Labels(ls)
    ensures var s := Join(ls, '.');
            && s != "" && s[|s| - 1] != '.'
            && forall i | 0 <= i < |s| :: LabelChar(s[i]) || s[i] == '-' || s[i] == '.'
  {
    if |ls| > 1 {
      JoinedLabels(ls[1..]);
    }
  }

  /** A sanitized name is a fixed point of the sanitizer, so the saved names pass
      the validator that compares a name with its sanitized form. */
  lemma {:induction false} NameFixedPoint(name: string)
    requires DnsText(name)
    ensures SanitizeName(name) == Some(name)
  {
    JoinedLabels(Split(name, '.'));
    assert Lower(name) == name;
  }

  // ---------- lists of names ----------

  /** Code-unit order, as `Array.prototype.sort` compares strings. */
  predicate Before(a: string, b: string) {
    if b == "" then false
    else if a == "" then true
    else a[0] < b[0] || (a[0] == b[0] && Before(a[1..], b[1..]))
  }

  function Insert(x: string, names: seq<string>): (r: seq<string>)
    requires x !in names && NoDuplicates(names)
    ensures NoDuplicates(r) && forall y :: y in r <==> y == x || y in names
  {
    if names == [] || Before(x, names[0]) then [x] + names
    else
      assert names[0] !in names[1..];
      [names[0]] + Insert(x, names[1..])
  }

  /** `[...new Set(names)].sort()`. */
  function SortUnique(names: seq<string>): (r: seq<string>)
    ensures NoDuplicates(r) && forall y :: y in r <==> y in names
  {
    if names == [] then []
    else
      var rest := SortUnique(names[1..]);
      if names[0] in rest then rest else Insert(names[0], rest)
  }

  predicate Ascending(names: seq<string>) { forall i, j | 0 <= i < j < |names| :: Before(names[i], names[j]) }

  lemma {:induction false} BeforeIsOrder(a: string, b: string)
    ensures Before(a, b) || Before(b, a) || a == b
    ensures !(Before(a, b) && Before(b, a)) && !Before(a, a)
  {
    if a != "" {
      BeforeIsOrder(a[1..], if b == "" then "" else b[1..]);
      assert a == [a[0]] + a[1..];
      assert b != "" ==> b == [b[0]] + b[1..];
    }
  }

  lemma {:induction false} BeforeTransitive(a: string, b: string, c: string)
    requires Before(a, b) && Before(b, c)
    ensures Before(a, c)
  {
    if a != "" && a[0] == b[0] == c[0] {
      BeforeTransitive(a[1..], b[1..], c[1..]);
    }
  }

  lemma {:induction false} InsertAscending(x: string, names: seq<string>)
    requires x !in names && NoDuplicates(names) && Ascending(names)
    ensures Ascending(Insert(x, names))
  {
    if names != [] {
      BeforeIsOrder(x, names[0]);
      var rest := names[1..];
      forall i | 0 <= i < |rest| ensures Before(names[0], rest[i]) && (Before(x, names[0]) ==> Before(x, rest[i])) {
        assert rest[i] == names[i + 1];
        if Before(x, names[0]) {
          BeforeTransitive(x, names[0], rest[i]);
        }
      }
      if !Before(x, names[0]) {
        assert names[0] !in rest;
        InsertAscending(x, rest);
        var tail := Insert(x, rest);
        forall j | 0 <= j < |tail| ensures Before(names[0], tail[j]) {
          assert tail[j] in tail;
        }
      }
    }
  }

  lemma {:induction false} SortAscending(names: seq<string>)
    ensures Ascending(SortUnique(names))
  {
    if names != [] {
      var rest := SortUnique(names[1..]);
      SortAscending(names[1..]);
      if names[0] !in rest {
        InsertAscending(names[0], rest);
      }
    }
  }

  /** Ascending lists with the same names are the same list. */
  lemma {:induction false} AscendingUnique(a: seq<string>, b: seq<string>)
    requires Ascending(a) && Ascending(b) && forall y :: y in a <==> y in b
    ensures a == b
  {
    if a != [] {
      BothFilled(a, b);
    }
    if b != [] {
      BothFilled(b, a);
      FirstsAgree(a, b);
      forall y ensures y in a[1..] <==> y in b[1..] {
        TailMember(a, y);
        TailMember(b, y);
      }
      AscendingUnique(a[1..], b[1..]);
      assert a == [a[0]] + a[1..] && b == [b[0]] + b[1..];
    }
  }

  lemma {:induction false} BothFilled(a: seq<string>, b: seq<string>)
    requires a != [] && forall y :: y in a <==> y in b
    ensures b != []
  {
    assert a[0] in a;
  }

  lemma {:induction false} TailMember(a: seq<string>, y: string)
    requires Ascending(a) && a != []
    ensures y in a[1..] <==> y in a && y != a[0]
  {
    BeforeIsOrder(y, y);
    if y in a[1..] {
      var i :| 0 <= i < |a| - 1 && a[1..][i] == y;
      assert Before(a[0], a[i + 1]);
    }
  }

  lemma {:induction false} FirstsAgree(a: seq<string>, b: seq<string>)
    requires Ascending(a) && Ascending(b) && a != [] && b != [] && forall y :: y in a <==> y in b
    ensures a[0] == b[0]
  {
    assert a[0] in b && b[0] in a;
    var i :| 0 <= i < |b| && b[i] == a[0];
    var j :| 0 <= j < |a| && a[j] == b[0];
    BeforeIsOrder(a[0], b[0]);
  }

  /** Sorting gives the names in ascending order, and one list for each set of names. */
  lemma {:induction false} SortedOnce(names: seq<string>, others: seq<string>)
    ensures Ascending(SortUnique(names))
    ensures (forall y :: y in names <==> y in others) ==> SortUnique(names) == SortUnique(others)
  {
    SortAscending(names);
    SortAscending(others);
    if forall y :: y in names <==> y in others {
      AscendingUnique(SortUnique(names), SortUnique(others));
    }
  }

  function ValidNames(inputs: seq<string>): (r: seq<string>)
    ensures forall y | y in r :: DnsText(y)
  {
    if inputs == [] then []
    else
      match SanitizeName(inputs[0])
      case None => ValidNames(inputs[1..])
      case Some(name) => [name] + ValidNames(inputs[1..])
  }

  /** The names `sanitizeSplitDNSDomains` keeps; unlike DNS names they may be numeric. */
  function SplitDomains(inputs: seq<string>): seq<string> {
    if inputs == [] then []
    else
      var name := StripDot(Lower(inputs[0]));
      if name != "" && |name| <= 253 && Labels(Split(name, '.')) then [name] + SplitDomains(inputs[1..]) else SplitDomains(inputs[1..])
  }

  /** `sanitizeSplitDNSDomains`. */
  function SanitizeSplitDomains(inputs: seq<string>): seq<string> { SortUnique(SplitDomains(inputs)) }

  /** `sanitizeDNSRoutes`. */
  function SanitizeRoutes(routes: seq<string>): (r: seq<string>)
    ensures NoDuplicates(r) && forall y | y in r :: DnsText(y)
  {
    SortUnique(ValidNames(routes))
  }

  /** What stands before the suffix in a full name, if that is a single valid label. */
  function ShortOf(suffix: string, full: string): Option<string> {
    if !EndsWith(full, "." + suffix) then None
    else
      var short := full[..|full| - |suffix| - 1];
      if '.' !in short && SanitizeName(short).Some? then Some(short) else None
  }

  /** The short name a peer's full name gives under the suffix. */
  function ShortName(suffix: string, dnsName: string): Option<string> {
    var full := SanitizeName(dnsName);
    if full.None? then None else ShortOf(suffix, full.value)
  }

  /** A collected short name is already in sanitized form. */
  lemma {:induction false} ShortNameFixed(suffix: string, dnsName: string)
    requires ShortName(suffix, dnsName).Some?
    ensures var short := ShortName(suffix, dnsName).value; '.' !in short && DnsText(short)
  {
    var full := SanitizeName(dnsName).value;
    PrefixFixed(full, |full| - |suffix| - 1);
  }

  lemma {:induction false} PrefixFixed(full: string, k: nat)
    requires DnsText(full) && k <= |full| && '.' !in full[..k] && SanitizeName(full[..k]).Some?
    ensures DnsText(full[..k])
  {
    JoinedLabels(Split(full, '.'));
    var short := full[..k];
    assert Lower(short) == short;
    assert StripDot(short) == short;
  }

  function ShortNames(suffix: string, names: seq<string>): (r: seq<string>)
    ensures forall y | y in r :: '.' !in y && DnsText(y)
  {
    if names == [] then []
    else
      match ShortName(suffix, names[0])
      case None => ShortNames(suffix, names[1..])
      case Some(short) =>
        ShortNameFixed(suffix, names[0]);
        [short] + ShortNames(suffix, names[1..])
  }

  /** `collectShortNames` over the names of all peers and of this node. */
  function CollectShortNames(magicSuffix: string, names: seq<string>): (r: seq<string>)
    ensures NoDuplicates(r) && forall y | y in r :: '.' !in y && DnsText(y)
  {
    match SanitizeName(magicSuffix)
    case None => []
    case Some(suffix) => SortUnique(ShortNames(suffix, names))
  }

  // ---------- split-tunnel domains ----------

  predicate SchemeChar(c: char) { LabelChar(c) || c == '+' || c == '-' || c == '.' }

  function SchemeRun(s: string): (n: nat)
    ensures n <= |s|
  {
    if s != "" && SchemeChar(s[0]) then 1 + SchemeRun(s[1..]) else 0
  }

  /** Without a leading `scheme://`. */
  function StripScheme(s: string): string {
    if s != "" && 'a' <= s[0] <= 'z' && StartsWith(s[SchemeRun(s)..], "://") then s[SchemeRun(s) + 3..] else s
  }

  /** The part before the first occurrence of `c`. */
  function CutAt(s: string, c: char): (r: string)
    ensures c !in s ==> r == s
  {
    if s == "" || s[0] == c then "" else [s[0]] + CutAt(s[1..], c)
  }

  function StripLeadingDot(s: string): string {
    if s != "" && s[0] == '.' then s[1..] else s
  }

  predicate DomainChar(c: char) { LabelChar(c) || c == '.' || c == '-' }

  predicate DomainText(s: string) {
    && s != "" && (forall i | 0 <= i < |s| :: DomainChar(s[i]))
    && forall i | 0 < i < |s| :: s[i] == '.' ==> s[i - 1] != '.'
  }

  /** The host in a lower-case URL or domain: without scheme, path and port. */
  function HostPart(value: string): string { CutAt(CutAt(StripScheme(value), '/'), ':') }

  function CleanDomain(value: string): Option<string> {
    var bare := StripLeadingDot(StripDot(HostPart(value)));
    if DomainText(bare) then Some(bare) else None
  }

  function Trimmed(input: string): string { Lower(TrimRight(TrimLeft(input))) }

  /** `sanitizeDomain`. */
  function SanitizeDomain(input: string): (r: Option<string>)
    ensures r.Some? ==> DomainText(r.value)
  {
    var value := Trimmed(input);
    if value == "" then None else CleanDomain(value)
  }

  /** On a cleaned domain only the dots at the ends can still be removed. */
  lemma {:induction false} SanitizeAgain(d: string)
    requires d != "" && forall i | 0 <= i < |d| :: DomainChar(d[i])
    ensures SanitizeDomain(d)
            == var bare := StripLeadingDot(StripDot(d)); if DomainText(bare) then Some(bare) else None
  {
    assert TrimLeft(d) == d && TrimRight(d) == d && Lower(d) == d;
    assert forall i | 0 <= i < |d| :: d[i] != ':' && d[i] != '/';
    assert ':' !in d && '/' !in d;
    NoScheme(d);
  }

  lemma {:induction false} NoScheme(d: string)
    requires ':' !in d
    ensures StripScheme(d) == d
  {
    var t := d[SchemeRun(d)..];
    if StartsWith(t, "://") {
      StartsWithHead(t, "://");
      assert false;
    }
  }

  lemma {:induction false} StartsWithHead(s: string, prefix: string)
    requires prefix != "" && StartsWith(s, prefix)
    ensures s != "" && s[0] == prefix[0] && s[0] in s
  {
    assert s[0] == s[..|prefix|][0];
  }

  /** Stripping one dot at each end of a domain without double dots leaves none. */
  lemma {:induction false} StrippedEnds(d: string)
    requires DomainText(d)
    ensures var bare := StripLeadingDot(StripDot(d));
            StripLeadingDot(StripDot(bare)) == bare
  {
    var n := |d|;
    assert n >= 2 ==> !(d[0] == '.' && d[1] == '.') && !(d[n - 1] == '.' && d[n - 2] == '.');
    assert n >= 3 ==> !(d[1] == '.' && d[2] == '.');
  }

  /** The domain sanitizer is not idempotent, but its second application always
      reaches a fixed point. */
  lemma {:induction false} DomainTwiceFixed(input: string)
    requires SanitizeDomain(input).Some?
    requires SanitizeDomain(SanitizeDomain(input).value).Some?
    ensures var twice := SanitizeDomain(SanitizeDomain(input).value).value;
            SanitizeDomain(twice) == Some(twice)
  {
    var once := SanitizeDomain(input).value;
    SanitizeAgain(once);
    StrippedEnds(once);
    SanitizeAgain(SanitizeDomain(once).value);
  }

  /** One application reaches a fixed point exactly when the host in the input neither
      starts nor ends with two dots, since one is stripped at each end. */
  lemma {:induction false} DomainFixedIff(input: string)
    requires SanitizeDomain(input).Some?
    ensures var once, host := SanitizeDomain(input).value, HostPart(Trimmed(input));
            SanitizeDomain(once) == Some(once) <==> !StartsWith(host, "..") && !EndsWith(host, "..")
  {
    var once := SanitizeDomain(input).value;
    SanitizeAgain(once);
    EndsBare(once);
    DotsLeft(HostPart(Trimmed(input)));
  }

  lemma {:induction false} DotsLeft(host: string)
    requires StripLeadingDot(StripDot(host)) != ""
    ensures var bare := StripLeadingDot(StripDot(host));
            && (bare[0] == '.' <==> StartsWith(host, ".."))
            && (bare[|bare| - 1] == '.' <==> EndsWith(host, ".."))
  {
    var n := |host|;
    if n >= 2 {
      assert host[..2] == [host[0], host[1]] && host[n - 2..] == [host[n - 2], host[n - 1]];
    }
  }

  lemma {:induction false} EndsBare(d: string)
    requires DomainText(d)
    ensures StripLeadingDot(StripDot(d)) == d <==> d[0] != '.' && d[|d| - 1] != '.'
  {
  }

  /** A domain that is not yet fixed after one application. */
  lemma {:induction false} DomainOnceIsNotFixed()
    ensures SanitizeDomain("..a") == Some(".a") && SanitizeDomain(".a") == Some("a")
  {
    SanitizeAgain("..a");
    SanitizeAgain(".a");
    assert StripLeadingDot(StripDot("..a")) == ".a" && StripLeadingDot(StripDot(".a")) == "a";
  }

  datatype SplitMode = Bypass | Only
  datatype DomainSplit = DomainSplit(mode: SplitMode, domains: seq<string>)

  /** The sanitized values kept, in first-seen order. */
  function Firsts(values: seq<Option<string>>): (r: seq<string>)
    ensures NoDuplicates(r)
  {
    if values == [] then []
    else
      var front, last := Firsts(values[..|values| - 1]), values[|values| - 1];
      if last.None? || last.value in front then front else front + [last.value]
  }

  function Sanitized(raw: seq<string>): (r: seq<Option<string>>)
    ensures |r| == |raw| && forall i | 0 <= i < |r| :: r[i] == SanitizeDomain(raw[i])
  {
    seq(|raw|, i requires 0 <= i < |raw| => SanitizeDomain(raw[i]))
  }

  /** The domains that `normalizeDomainSplit` and `sanitizeSplitDomains` keep. */
  function CleanDomains(raw: seq<string>): (r: seq<string>)
    ensures NoDuplicates(r)
  {
    Firsts(Sanitized(raw))
  }

  lemma {:induction false} FirstsSource(values: seq<Option<string>>, d: string) returns (i: nat)
    requires d in Firsts(values)
    ensures i < |values| && values[i] == Some(d)
  {
    var n := |values| - 1;
    if d in Firsts(values[..n]) {
      i := FirstsSource(values[..n], d);
    } else {
      i := n;
    }
  }

  lemma {:induction false} CleanSource(raw: seq<string>, d: string) returns (x: string)
    requires d in CleanDomains(raw)
    ensures x in raw && SanitizeDomain(x) == Some(d)
  {
    var i := FirstsSource(Sanitized(raw), d);
    x := raw[i];
  }

  /** The loop shared by `normalizeDomainSplit` and `sanitizeSplitDomains`. */
  method CollectDomains(raw: seq<string>) returns (domains: seq<string>)
    ensures domains == CleanDomains(raw)
  {
    ghost var values := Sanitized(raw);
    var seen: set<string> := {};
    domains := [];
    for i := 0 to |raw|
      invariant domains == Firsts(values[..i])
      invariant forall d :: d in seen <==> d in domains
    {
      assert values[..i + 1][..i] == values[..i];
      var cleaned := SanitizeDomain(raw[i]);
      if cleaned.None? || cleaned.value in seen {
        continue;
      }
      seen := seen + {cleaned.value};
      domains := domains + [cleaned.value];
    }
    assert values[..|raw|] == values;
  }

  /** `normalizeDomainSplit` on a well-typed setting. */
  function Normalize(split: DomainSplit): DomainSplit {
    DomainSplit(split.mode, CleanDomains(split.domains))
  }

  predicate Same(values: seq<Option<string>>, ds: seq<string>) {
    |values| == |ds| && forall i | 0 <= i < |ds| :: values[i] == Some(ds[i])
  }

  lemma {:induction false} FirstsKeep(values: seq<Option<string>>, ds: seq<string>)
    requires NoDuplicates(ds) && Same(values, ds)
    ensures Firsts(values) == ds
  {
    if ds != [] {
      var n := |ds| - 1;
      FirstsKeep(values[..n], ds[..n]);
      assert ds[n] !in ds[..n] && ds == ds[..n] + [ds[n]];
    }
  }

  lemma {:induction false} FirstsShrink(values: seq<Option<string>>)
    ensures |Firsts(values)| <= |values|
  {
    if values != [] {
      FirstsShrink(values[..|values| - 1]);
    }
  }

  lemma {:induction false} FirstsKept(values: seq<Option<string>>, ds: seq<string>)
    requires |values| == |ds| && Firsts(values) == ds
    ensures Same(values, ds)
  {
    if ds != [] {
      var n := |ds| - 1;
      FirstsShrink(values[..n]);
      assert ds == Firsts(values[..n]) + [values[n].value];
      assert Firsts(values[..n]) == ds[..n];
      FirstsKept(values[..n], ds[..n]);
    }
  }

  predicate AllFixed(ds: seq<string>) { Same(Sanitized(ds), ds) }

  /** A domain list is kept as it is exactly when it has no duplicates and every
      entry is a fixed point of the sanitizer. */
  lemma {:induction false} CleanFixed(ds: seq<string>)
    ensures CleanDomains(ds) == ds <==> NoDuplicates(ds) && AllFixed(ds)
  {
    if CleanDomains(ds) == ds {
      FirstsKept(Sanitized(ds), ds);
    }
    if NoDuplicates(ds) && AllFixed(ds) {
      FirstsKeep(Sanitized(ds), ds);
    }
  }

  /** Normalizing an already normalized setting gives a setting that every further
      normalization keeps. */
  lemma {:induction false} NormalizeTwiceFixed(split: DomainSplit)
    ensures Normalize(Normalize(Normalize(split))) == Normalize(Normalize(split))
  {
    var once := CleanDomains(split.domains);
    var twice := CleanDomains(once);
    forall i | 0 <= i < |twice| ensures Sanitized(twice)[i] == Some(twice[i]) {
      assert twice[i] in twice;
      var v := CleanSource(once, twice[i]);
      var x := CleanSource(split.domains, v);
      DomainTwiceFixed(x);
    }
    CleanFixed(twice);
  }

  // ---------- what the sanitizers accept, and as what ----------

  /** Exactly which texts give a name: its own, in any case, with or without one dot at the
      end. */
  lemma {:induction false} NameIff(input: string, name: string)
    ensures SanitizeName(input) == Some(name) <==> DnsText(name) && (Lower(input) == name || Lower(input) == name + ".")
  {
    var low := Lower(input);
    if DnsText(name) {
      JoinedLabels(Split(name, '.'));
      assert (name + ".")[..|name|] == name;
    }
    if low != "" && low[|low| - 1] == '.' {
      assert low == low[..|low| - 1] + ".";
    }
  }

  /** Exactly which texts give a suffix. */
  lemma {:induction false} SuffixIff(input: string, suffix: string)
    requires suffix != ""
    ensures SanitizeSuffix(input) == suffix <==>
            SuffixText(suffix) && (Lower(input) == suffix + "." || (Lower(input) == suffix && suffix[|suffix| - 1] != '.'))
  {
    var low := Lower(input);
    assert (suffix + ".")[..|suffix|] == suffix;
    if low != "" && low[|low| - 1] == '.' {
      assert low == low[..|low| - 1] + ".";
    }
  }

  lemma {:induction false} ValidNamesIff(inputs: seq<string>, name: string)
    ensures name in ValidNames(inputs) <==> exists x :: x in inputs && SanitizeName(x) == Some(name)
  {
    if inputs != [] {
      var rest := inputs[1..];
      ValidNamesNext(inputs, name);
      ValidNamesIff(rest, name);
      if x :| x in rest && SanitizeName(x) == Some(name) {
        assert x in inputs;
      }
      if x :| x in inputs && SanitizeName(x) == Some(name) {
        assert x == inputs[0] || x in rest;
      }
    }
  }

  lemma {:induction false} ValidNamesNext(inputs: seq<string>, name: string)
    requires inputs != []
    ensures name in ValidNames(inputs) <==> SanitizeName(inputs[0]) == Some(name) || name in ValidNames(inputs[1..])
  {
    var first, rest := SanitizeName(inputs[0]), ValidNames(inputs[1..]);
    assert ValidNames(inputs) == if first.Some? then [first.value] + rest else rest;
  }

  /** Exactly which names `sanitizeDNSRoutes` keeps. */
  lemma {:induction false} RoutesIff(routes: seq<string>, name: string)
    ensures name in SanitizeRoutes(routes) <==> exists x :: x in routes && SanitizeName(x) == Some(name)
  {
    ValidNamesIff(routes, name);
  }

  /** A short name is what stands before the suffix in the sanitized full name, if that is
      a single valid label. */
  predicate ShortUnder(suffix: string, dnsName: string, short: string) {
    DnsText(short) && '.' !in short && SanitizeName(dnsName) == Some(short + "." + suffix)
  }

  lemma {:induction false} SplitsAt(full: string, head: string, tail: string)
    requires full == head + tail
    ensures full[|full| - |tail|..] == tail && full[..|full| - |tail|] == head
  {
  }

  /** Cutting a full name before a suffix, and putting it together again. */
  lemma {:induction false} CutsBefore(full: string, dotted: string, short: string)
    ensures full == short + dotted <==> EndsWith(full, dotted) && full[..|full| - |dotted|] == short
  {
    if EndsWith(full, dotted) {
      assert full == full[..|full| - |dotted|] + full[|full| - |dotted|..];
    }
    if full == short + dotted {
      SplitsAt(full, short, dotted);
    }
  }

  lemma {:induction false} ShortOfIff(suffix: string, full: string, short: string)
    ensures ShortOf(suffix, full) == Some(short) <==> full == short + ("." + suffix) && '.' !in short && SanitizeName(short).Some?
  {
    CutsBefore(full, "." + suffix, short);
  }

  lemma {:induction false} ShortNameIff(suffix: string, dnsName: string, short: string)
    ensures ShortName(suffix, dnsName) == Some(short) <==> ShortUnder(suffix, dnsName, short)
  {
    assert short + ("." + suffix) == short + "." + suffix;
    if SanitizeName(dnsName).Some? {
      ShortOfIff(suffix, SanitizeName(dnsName).value, short);
      if ShortName(suffix, dnsName) == Some(short) {
        ShortNameFixed(suffix, dnsName);
      } else if DnsText(short) {
        NameFixedPoint(short);
      }
    }
  }

  lemma {:induction false} ShortNamesNext(suffix: string, names: seq<string>, short: string)
    requires names != []
    ensures short in ShortNames(suffix, names) <==> ShortName(suffix, names[0]) == Some(short) || short in ShortNames(suffix, names[1..])
  {
    var first, rest := ShortName(suffix, names[0]), ShortNames(suffix, names[1..]);
    assert ShortNames(suffix, names) == if first.Some? then [first.value] + rest else rest;
  }

  lemma {:induction false} ShortNamesIn(suffix: string, names: seq<string>, short: string)
    ensures short in ShortNames(suffix, names) <==> exists x :: x in names && ShortName(suffix, x) == Some(short)
  {
    if names != [] {
      var rest := names[1..];
      ShortNamesNext(suffix, names, short);
      ShortNamesIn(suffix, rest, short);
      if short in ShortNames(suffix, rest) {
        var x :| x in rest && ShortName(suffix, x) == Some(short);
        assert x in names;
      }
      if x :| x in names && ShortName(suffix, x) == Some(short) {
        assert x == names[0] || x in rest;
      }
    }
  }

  /** Exactly which short names are collected. */
  lemma {:induction false} CollectIff(magicSuffix: string, names: seq<string>, short: string)
    ensures short in CollectShortNames(magicSuffix, names) <==>
            SanitizeName(magicSuffix).Some? && exists x :: x in names && ShortUnder(SanitizeName(magicSuffix).value, x, short)
  {
    if SanitizeName(magicSuffix).Some? {
      var suffix := SanitizeName(magicSuffix).value;
      ShortNamesIn(suffix, names, short);
      forall x | x in names ensures ShortName(suffix, x) == Some(short) <==> ShortUnder(suffix, x, short) {
        ShortNameIff(suffix, x, short);
      }
    }
  }

  lemma {:induction false} FirstsIff(values: seq<Option<string>>, d: string)
    ensures d in Firsts(values) <==> Some(d) in values
  {
    if values != [] {
      var n := |values| - 1;
      FirstsIff(values[..n], d);
      assert values == values[..n] + [values[n]];
      if values[n] == Some(d) {
        assert d in Firsts(values);
      }
    }
  }

  /** Exactly which domains of a split setting are kept. */
  lemma {:induction false} CleanIff(raw: seq<string>, d: string)
    ensures d in CleanDomains(raw) <==> exists x :: x in raw && SanitizeDomain(x) == Some(d)
  {
    FirstsIff(Sanitized(raw), d);
    if x :| x in raw && SanitizeDomain(x) == Some(d) {
      var i :| 0 <= i < |raw| && raw[i] == x;
      assert Sanitized(raw)[i] == Some(d);
    }
  }

  /** A split setting keeps its mode, and the domains that its entries sanitize to. */
  lemma {:induction false} NormalizeIff(split: DomainSplit, d: string)
    ensures Normalize(split).mode == split.mode
    ensures d in Normalize(split).domains <==> exists x :: x in split.domains && SanitizeDomain(x) == Some(d)
  {
    CleanIff(split.domains, d);
  }

  // ---------- a domain inside a URL ----------

  predicate AllSpace(s: string) { forall i | 0 <= i < |s| :: Space(s[i]) }

  lemma {:induction false} TrimsLeft(left: string, s: string)
    requires AllSpace(left) && s != "" && !Space(s[0])
    ensures TrimLeft(left + s) == s
  {
    if left == "" {
      assert left + s == s;
    } else {
      assert (left + s)[1..] == left[1..] + s;
      TrimsLeft(left[1..], s);
    }
  }

  lemma {:induction false} TrimsRight(s: string, right: string)
    requires AllSpace(right) && s != "" && !Space(s[|s| - 1])
    ensures TrimRight(s + right) == s
  {
    if right == "" {
      assert s + right == s;
    } else {
      var n := |right| - 1;
      assert (s + right)[..|s + right| - 1] == s + right[..n];
      TrimsRight(s, right[..n]);
    }
  }

  /** White space at the ends is dropped, and upper case lowered. */
  lemma {:induction false} TrimmedIs(left: string, s: string, right: string)
    requires AllSpace(left) && AllSpace(right) && s != "" && !Space(s[0]) && !Space(s[|s| - 1])
    ensures Trimmed(left + s + right) == Lower(s)
  {
    assert (s + right)[0] == s[0];
    assert left + s + right == left + (s + right);
    TrimsLeft(left, s + right);
    TrimsRight(s, right);
  }

  /** Nothing, or a scheme with its two slashes. */
  predicate SchemePart(p: string) {
    p == "" || (EndsWith(p, "://") && |p| > 3 && 'a' <= p[0] <= 'z' && forall i | 0 <= i < |p| - 3 :: SchemeChar(p[i]))
  }

  /** What may follow the host: a path, or a port. */
  predicate RestPart(p: string) { p == "" || p[0] == '/' || (p[0] == ':' && !StartsWith(p, "://")) }

  lemma {:induction false} RunStops(s: string, n: nat)
    requires n < |s| && !SchemeChar(s[n]) && forall i | 0 <= i < n :: SchemeChar(s[i])
    ensures SchemeRun(s) == n
  {
    if n > 0 {
      assert s[1..][n - 1] == s[n] && forall i | 0 <= i < n - 1 :: s[1..][i] == s[i + 1];
      RunStops(s[1..], n - 1);
    }
  }

  lemma {:induction false} SchemeStripped(scheme: string, body: string)
    requires SchemePart(scheme) && scheme != ""
    ensures StripScheme(scheme + body) == body
  {
    var s, n := scheme + body, |scheme| - 3;
    assert scheme[n..] == "://" && scheme[n..][0] == ':';
    assert forall i | 0 <= i < n :: s[i] == scheme[i];
    assert s[n] == scheme[n] == ':';
    RunStops(s, n);
    assert s[n..] == "://" + body;
    assert s[n..][..3] == "://";
  }

  lemma {:induction false} CutsAt(host: string, rest: string, c: char)
    requires c !in host && (rest == "" || rest[0] == c)
    ensures CutAt(host + rest, c) == host
  {
    if host == "" {
      assert host + rest == rest;
    } else {
      assert (host + rest)[1..] == host[1..] + rest;
      CutsAt(host[1..], rest, c);
      assert host == [host[0]] + host[1..];
    }
  }

  lemma {:induction false} CutsThrough(host: string, rest: string)
    requires '/' !in host && ':' !in host && RestPart(rest)
    ensures CutAt(CutAt(host + rest, '/'), ':') == host
  {
    if rest == "" || rest[0] == '/' {
      CutsAt(host, rest, '/');
      CutsAt(host, "", ':');
      assert host + "" == host;
    } else {
      var port := CutAt(rest, '/');
      CutPrefix(host, rest, '/');
      assert port != "" && port[0] == ':';
      CutsAt(host, port, ':');
    }
  }

  lemma {:induction false} CutPrefix(host: string, rest: string, c: char)
    requires c !in host
    ensures CutAt(host + rest, c) == host + CutAt(rest, c)
  {
    if host == "" {
      assert host + rest == rest && host + CutAt(rest, c) == CutAt(rest, c);
    } else {
      assert (host + rest)[1..] == host[1..] + rest;
      CutPrefix(host[1..], rest, c);
      assert [host[0]] + (host[1..] + CutAt(rest, c)) == host + CutAt(rest, c);
    }
  }

  lemma {:induction false} NoSchemeThere(host: string, rest: string)
    requires '/' !in host && ':' !in host && RestPart(rest)
    ensures StripScheme(host + rest) == host + rest
  {
    var s, n := host + rest, SchemeRun(host + rest);
    if StartsWith(s[n..], "://") {
      StartsWithHead(s[n..], "://");
      assert s[n] == ':' && s[n..][..3] == "://" && s[n..][..3][1] == '/';
      assert s[|host|..] == rest;
      RunChars(s);
      assert false;
    }
  }

  lemma {:induction false} RunChars(s: string)
    ensures forall i | 0 <= i < SchemeRun(s) :: SchemeChar(s[i])
  {
    if s != "" && SchemeChar(s[0]) {
      RunChars(s[1..]);
      assert forall i | 1 <= i < SchemeRun(s) :: s[i] == s[1..][i - 1];
    }
  }

  /** The domain in a setting is the host of the URL it may be written as: with or without a
      scheme, a port, a path, a dot at either end, upper case and white space around it. */
  lemma {:induction false} DomainOfUrl(input: string, scheme: string, host: string, rest: string)
    requires Trimmed(input) == scheme + host + rest && SchemePart(scheme) && RestPart(rest)
    requires host != "" && '/' !in host && ':' !in host
    ensures var bare := StripLeadingDot(StripDot(host)); SanitizeDomain(input) == if DomainText(bare) then Some(bare) else None
  {
    assert scheme + host + rest == scheme + (host + rest);
    if scheme == "" {
      assert scheme + (host + rest) == host + rest;
      NoSchemeThere(host, rest);
    } else {
      SchemeStripped(scheme, host + rest);
    }
    CutsThrough(host, rest);
    assert (host + rest)[0] == host[0];
  }

  // ---------- order and repetition do not matter ----------

  /** Policies compare their lists as text; so it matters that the same DNS routes and the
      same nodes, in any order, give the same sorted lists. */
  lemma {:induction false} ListsAreCanonical(routes: seq<string>, routes': seq<string>, magicSuffix: string, names: seq<string>, names': seq<string>)
    requires forall y :: y in routes <==> y in routes'
    requires forall y :: y in names <==> y in names'
    ensures SanitizeRoutes(routes) == SanitizeRoutes(routes') && Ascending(SanitizeRoutes(routes))
    ensures CollectShortNames(magicSuffix, names) == CollectShortNames(magicSuffix, names')
  {
    forall y ensures y in SanitizeRoutes(routes) <==> y in SanitizeRoutes(routes') {
      RoutesIff(routes, y);
      RoutesIff(routes', y);
    }
    forall y ensures y in CollectShortNames(magicSuffix, names) <==> y in CollectShortNames(magicSuffix, names') {
      CollectIff(magicSuffix, names, y);
      CollectIff(magicSuffix, names', y);
    }
    SortAscending(ValidNames(routes));
    SortAscending(ValidNames(routes'));
    AscendingUnique(SanitizeRoutes(routes), SanitizeRoutes(routes'));
    if SanitizeName(magicSuffix).Some? {
      SortAscending(ShortNames(SanitizeName(magicSuffix).value, names));
      SortAscending(ShortNames(SanitizeName(magicSuffix).value, names'));
    }
    AscendingUnique(CollectShortNames(magicSuffix, names), CollectShortNames(magicSuffix, names'));
  }
}
