/** Resource names and hostnames (src/demo_controller/naming.py): two truncating printers whose
    results are used as keys, each proved against a parser that reads the parts back. */
module Naming {
  import opened Text

  predicate SlugChar(c: char) {
    IsLetter(c) || IsDigit(c) || c == '-'
  }

  /** `re.sub(r"[^a-z0-9-]+", "-", s)`: every maximal run of other characters becomes one hyphen. */
  function Collapse(s: string): (r: string)
    ensures forall c | c in r :: SlugChar(c)
  {
    if s == [] then []
    else
      var front, last := s[..|s| - 1], s[|s| - 1];
      if SlugChar(last) then Collapse(front) + [last]
      else if front == [] || SlugChar(front[|front| - 1]) then Collapse(front) + "-"
      else Collapse(front)
  }

  function Replace(s: string, from: char, to: char): (r: string) {
    seq(|s|, i requires 0 <= i < |s| => if s[i] == from then to else s[i])
  }

  function StripLeft(s: string): (r: string)
    ensures forall c | c in r :: c in s
  {
    if s != [] && s[0] == '-' then StripLeft(s[1..]) else s
  }

  function StripRight(s: string): (r: string)
    ensures r <= s
  {
    if s != [] && s[|s| - 1] == '-' then StripRight(s[..|s| - 1]) else s
  }

  function Strip(s: string): (r: string)
    ensures forall c | c in r :: c in s
  {
    StripRight(StripLeft(s))
  }

  // ---------------------------------------------------------------- resource names

  function ResourceSlug(repository: string): (r: string)
    ensures |r| <= 39 && forall c | c in r :: SlugChar(c)
  {
    Take(Strip(Collapse(Replace(Lower(repository), '/', '-'))), 39)
  }

  /** The name before the cut at 63 characters. */
  function UncutName(digest: string, repository: string, pr: nat): string
    requires HexDigest(digest)
  {
    "demo-" + ResourceSlug(repository) + "-" + digest[..8] + "-pr-" + Decimal(pr)
  }

  /** `resource_name`; `digest` is the SHA-256 hex digest of the repository. */
  function ResourceName(digest: string, repository: string, pr: nat): string
    requires HexDigest(digest)
  {
    StripRight(Take(UncutName(digest, repository, pr), 63))
  }

  /** How many digits of the pull request number fit behind the slug: 63 - 18 - |slug|. */
  function DigitRoom(repository: string): (n: nat)
    ensures 6 <= n <= 45
  {
    45 - |ResourceSlug(repository)|
  }

  /** The digits that survive the cut. */
  function KeptDigits(repository: string, pr: nat): (s: string)
    ensures |s| >= 1 && AllDigits(s)
  {
    Take(Decimal(pr), DigitRoom(repository))
  }

  function Head(digest: string, repository: string): (s: string)
    requires HexDigest(digest)
    ensures |s| == 18 + |ResourceSlug(repository)|
    ensures s[0] == 'd' && s[|s| - 1] == '-' && forall c | c in s :: SlugChar(c)
    ensures s[5..|s| - 13] == ResourceSlug(repository)
    ensures s[|s| - 12..|s| - 4] == digest[..8]
  {
    var slug := ResourceSlug(repository);
    var s := "demo-" + slug + "-" + digest[..8] + "-pr-";
    assert forall c | c in digest[..8] :: IsHex(c);
    assert forall c | c in s :: c in "demo-" || c in slug || c in "-" || c in digest[..8] || c in "-pr-";
    s
  }

  /** The longest suffix of digits. */
  function DigitSuffix(s: string): (r: string)
    ensures |r| <= |s| && s[|s| - |r|..] == r
  {
    if s == [] || !IsDigit(s[|s| - 1]) then [] else DigitSuffix(s[..|s| - 1]) + [s[|s| - 1]]
  }

  lemma {:induction false} DigitSuffixOf(head: string, digits: string)
    requires head != [] && !IsDigit(head[|head| - 1]) && AllDigits(digits)
    ensures DigitSuffix(head + digits) == digits
  {
    if digits == [] {
      assert head + digits == head;
    } else {
      var rest := digits[..|digits| - 1];
      DigitSuffixOf(head, rest);
      assert (head + digits)[..|head + digits| - 1] == head + rest;
      assert digits == rest + [digits[|digits| - 1]];
    }
  }

  datatype NameParts = NameParts(slug: string, digest: string, digits: string)

  /** Reads a resource name from its end: digits, "-pr-", eight digest characters, "-", slug. */
  function ParseName(name: string): Option<NameParts> {
    var digits := DigitSuffix(name);
    var head := name[..|name| - |digits|];
    if |head| < 18 then None
    else Some(NameParts(head[5..|head| - 13], head[|head| - 12..|head| - 4], digits))
  }

  /** The cut at 63 removes only trailing digits of the number, and stripping removes nothing. */
  lemma CutDropsOnlyDigits(digest: string, repository: string, pr: nat)
    requires HexDigest(digest)
    ensures ResourceName(digest, repository, pr) == Head(digest, repository) + KeptDigits(repository, pr)
    ensures ResourceName(digest, repository, pr) == Take(UncutName(digest, repository, pr), 63)
  {
    var head, digits := Head(digest, repository), Decimal(pr);
    var uncut := UncutName(digest, repository, pr);
    assert uncut == head + digits;
    var cut := Take(uncut, 63);
    assert cut == head + KeptDigits(repository, pr);
    assert cut[|cut| - 1] in KeptDigits(repository, pr);
  }

  /** Every resource name is a label in the sense of section 2.3.1 of RFC 1035. */
  lemma NameIsLabel(digest: string, repository: string, pr: nat)
    requires HexDigest(digest)
    ensures var name := ResourceName(digest, repository, pr);
            && 1 <= |name| <= 63
            && IsLetter(name[0]) && IsDigit(name[|name| - 1])
            && forall c | c in name :: SlugChar(c)
  {
    CutDropsOnlyDigits(digest, repository, pr);
    var head, kept := Head(digest, repository), KeptDigits(repository, pr);
    assert (head + kept)[|head + kept| - 1] == kept[|kept| - 1];
    assert forall c | c in head + kept :: c in head || c in kept;
  }

  lemma NameRoundTrip(digest: string, repository: string, pr: nat)
    requires HexDigest(digest)
    ensures ParseName(ResourceName(digest, repository, pr))
            == Some(NameParts(ResourceSlug(repository), digest[..8], KeptDigits(repository, pr)))
  {
    CutDropsOnlyDigits(digest, repository, pr);
    var head, kept := Head(digest, repository), KeptDigits(repository, pr);
    DigitSuffixOf(head, kept);
    assert (head + kept)[..|head + kept| - |kept|] == head;
  }

  /** Exactly when two resource names coincide. */
  lemma NamesEqualIff(d1: string, r1: string, p1: nat, d2: string, r2: string, p2: nat)
    requires HexDigest(d1) && HexDigest(d2)
    ensures ResourceName(d1, r1, p1) == ResourceName(d2, r2, p2)
            <==> && ResourceSlug(r1) == ResourceSlug(r2)
                 && d1[..8] == d2[..8]
                 && KeptDigits(r1, p1) == KeptDigits(r2, p2)
  {
    NameRoundTrip(d1, r1, p1);
    NameRoundTrip(d2, r2, p2);
    CutDropsOnlyDigits(d1, r1, p1);
    CutDropsOnlyDigits(d2, r2, p2);
  }

  /** Reading the number back from the parsed name succeeds exactly when it was not cut. */
  lemma NumberRecovered(digest: string, repository: string, pr: nat)
    requires HexDigest(digest)
    ensures var parsed := ParseName(ResourceName(digest, repository, pr));
            && parsed.Some? && AllDigits(parsed.value.digits)
            && (DecimalValue(parsed.value.digits) == pr
                <==> 18 + |ResourceSlug(repository)| + |Decimal(pr)| <= 63)
  {
    NameRoundTrip(digest, repository, pr);
    KeptValue(repository, pr);
  }

  lemma KeptValue(repository: string, pr: nat)
    ensures DecimalValue(KeptDigits(repository, pr)) == pr
            <==> 18 + |ResourceSlug(repository)| + |Decimal(pr)| <= 63
  {
    var room := DigitRoom(repository);
    if |Decimal(pr)| > room {
      PrefixIsSmaller(pr, room);
    } else {
      DecimalRoundTrip(pr);
    }
  }

  /** Distinct demos have distinct names when the eight-character digests separate their
      repositories and every number fits, in particular below one million. */
  lemma DistinctNames(d1: string, r1: string, p1: nat, d2: string, r2: string, p2: nat)
    requires HexDigest(d1) && HexDigest(d2)
    requires p1 < 1_000_000 && p2 < 1_000_000
    requires r1 != r2 ==> d1[..8] != d2[..8]
    requires r1 != r2 || p1 != p2
    ensures ResourceName(d1, r1, p1) != ResourceName(d2, r2, p2)
  {
    NamesEqualIff(d1, r1, p1, d2, r2, p2);
    Pow10Six();
    DecimalLength(p1, 6);
    DecimalLength(p2, 6);
    if r1 == r2 && Decimal(p1) == Decimal(p2) { DecimalInjective(p1, p2); }
  }

  /** Above that bound the cut merges demos of one repository: a long slug leaves room for six
      digits, so numbers 1000000 to 1000009 and 100000 all share one name. */
  lemma LongNumbersCollide(digest: string, repository: string, last: nat)
    requires HexDigest(digest) && |ResourceSlug(repository)| == 39 && last < 10
    ensures ResourceName(digest, repository, 1_000_000 + last) == ResourceName(digest, repository, 100_000)
  {
    var pr := 1_000_000 + last;
    assert Decimal(pr) == Decimal(100_000) + [DigitChar(last)];
    Pow10Six();
    DecimalLength(100_000, 6);
    DecimalLength(100_000, 5);
    assert Pow10(6) == 10 * Pow10(5);
    assert |Decimal(100_000)| == 6;
    NamesEqualIff(digest, repository, pr, digest, repository, 100_000);
  }

  // ---------------------------------------------------------------- hostnames

  function AfterLast(s: string, c: char): (r: string)
    requires c in s
    ensures c !in r
  {
    if s[|s| - 1] == c then [] else AfterLast(s[..|s| - 1], c) + [s[|s| - 1]]
  }

  function HostSlug(repository: string): (r: string)
    requires '/' in repository
    ensures |r| <= 40 && forall c | c in r :: SlugChar(c)
  {
    Take(Strip(Collapse(Lower(AfterLast(repository, '/')))), 40)
  }

  /** `hostname`. */
  function Hostname(repository: string, pr: nat, suffix: string): string
    requires '/' in repository
  {
    HostSlug(repository) + "-pr-" + Decimal(pr) + "." + suffix
  }

  function FirstLabel(host: string): (r: string)
    ensures r <= host
  {
    if host == [] || host[0] == '.' then [] else [host[0]] + FirstLabel(host[1..])
  }

  /** The position of the last "-pr-", if there is one, scanning from `i` downwards. */
  function LastMark(s: string, i: int): (r: Option<nat>)
    requires i + 4 <= |s|
    ensures r.Some? ==> r.value <= i && s[r.value..r.value + 4] == "-pr-"
    decreases i + 1
  {
    if i < 0 then None
    else if s[i..i + 4] == "-pr-" then Some(i as nat)
    else LastMark(s, i - 1)
  }

  /** Splits the first label of a hostname at its last "-pr-". */
  function ParseHost(host: string): Option<(string, string)> {
    SplitLabel(FirstLabel(host))
  }

  function SplitLabel(front: string): Option<(string, string)> {
    match LastMark(front, |front| - 4)
    case None => None
    case Some(i) => Some((front[..i], front[i + 4..]))
  }

  lemma {:induction false} FirstLabelOf(front: string, rest: string)
    requires '.' !in front
    ensures FirstLabel(front + "." + rest) == front
  {
    if front != [] {
      FirstLabelOf(front[1..], rest);
      assert (front + "." + rest)[1..] == front[1..] + "." + rest;
    }
  }

  /** No "-pr-" starts behind the one that precedes the digits. */
  lemma NoLaterMark(slug: string, digits: string, i: nat)
    requires AllDigits(digits)
    requires |slug| < i && i + 4 <= |slug + "-pr-" + digits|
    ensures (slug + "-pr-" + digits)[i..i + 4] != "-pr-"
  {
    var s := slug + "-pr-" + digits;
    if i >= |slug| + 3 {
      assert s[i + 1] == digits[i - |slug| - 3];
      assert s[i + 1] in digits && s[i..i + 4][1] == s[i + 1];
      assert "-pr-"[1] == 'p';
    } else {
      assert s[i] == "-pr-"[i - |slug|] && s[i..i + 4][0] == s[i];
      assert "-pr-"[0] == '-';
    }
  }

  lemma {:induction false} LastMarkOf(slug: string, digits: string, i: int)
    requires AllDigits(digits)
    requires |slug| <= i && i + 4 <= |slug + "-pr-" + digits|
    ensures LastMark(slug + "-pr-" + digits, i) == Some(|slug|)
  {
    var s := slug + "-pr-" + digits;
    assert s[|slug|..|slug| + 4] == "-pr-";
    if i > |slug| {
      NoLaterMark(slug, digits, i);
      LastMarkOf(slug, digits, i - 1);
    }
  }

  lemma NoDot(slug: string, digits: string)
    requires (forall c | c in slug :: SlugChar(c)) && AllDigits(digits)
    ensures '.' !in slug + "-pr-" + digits
  {
    assert forall c | c in slug + "-pr-" + digits :: c in slug || c in "-pr-" || c in digits;
  }

  lemma SplitFront(slug: string, digits: string)
    requires AllDigits(digits)
    ensures SplitLabel(slug + "-pr-" + digits) == Some((slug, digits))
  {
    var front := slug + "-pr-" + digits;
    LastMarkOf(slug, digits, |front| - 4);
    assert front[..|slug|] == slug && front[|slug| + 4..] == digits;
  }

  lemma HostParts(slug: string, digits: string, suffix: string)
    requires (forall c | c in slug :: SlugChar(c)) && AllDigits(digits)
    ensures ParseHost(slug + "-pr-" + digits + "." + suffix) == Some((slug, digits))
  {
    var front := slug + "-pr-" + digits;
    NoDot(slug, digits);
    FirstLabelOf(front, suffix);
    SplitFront(slug, digits);
    assert SplitLabel(front) == Some((slug, digits));
  }

  lemma HostRoundTrip(repository: string, pr: nat, suffix: string)
    requires '/' in repository
    ensures ParseHost(Hostname(repository, pr, suffix)) == Some((HostSlug(repository), Decimal(pr)))
  {
    HostParts(HostSlug(repository), Decimal(pr), suffix);
  }

  /** Two hostnames under one suffix coincide exactly when slug and number do. */
  lemma HostsEqualIff(r1: string, p1: nat, r2: string, p2: nat, suffix: string)
    requires '/' in r1 && '/' in r2
    ensures Hostname(r1, p1, suffix) == Hostname(r2, p2, suffix)
            <==> HostSlug(r1) == HostSlug(r2) && p1 == p2
  {
    HostRoundTrip(r1, p1, suffix);
    HostRoundTrip(r2, p2, suffix);
    if Decimal(p1) == Decimal(p2) { DecimalInjective(p1, p2); }
  }
}
