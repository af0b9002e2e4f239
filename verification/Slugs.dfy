/** What slugs are, apart from how they are computed: laws that determine the substitution, the strip
    and the case conversion on every string, and the names that follow from them. */
module Slugs {
  import opened Text
  import opened Naming
  import opened Store

  // ---------------------------------------------------------------- characters

  const CAPITALS := "ABCDEFGHIJKLMNOPQRSTUVWXYZ"
  const SMALL := "abcdefghijklmnopqrstuvwxyz"
  const FIGURES := "0123456789"

  lemma LettersInOrder(k: nat)
    requires k < 26
    ensures CAPITALS[k] as int == 'A' as int + k && SMALL[k] as int == 'a' as int + k
  {
  }

  /** Each capital letter becomes its partner, and nothing else changes. */
  lemma LowerLaw(c: char)
    ensures forall k | 0 <= k < 26 :: c == CAPITALS[k] ==> LowerChar(c) == SMALL[k]
    ensures c !in CAPITALS ==> LowerChar(c) == c
  {
    forall k | 0 <= k < 26 ensures c == CAPITALS[k] ==> LowerChar(c) == SMALL[k] {
      LettersInOrder(k);
    }
    if 'A' <= c <= 'Z' {
      LettersInOrder(c as int - 'A' as int);
      assert c == CAPITALS[c as int - 'A' as int];
    }
  }

  /** The class of the substitution: small letters, figures and the hyphen. */
  lemma SlugCharLaw(c: char)
    ensures SlugChar(c) <==> c in SMALL || c in FIGURES || c == '-'
  {
    if 'a' <= c <= 'z' {
      LettersInOrder(c as int - 'a' as int);
      assert c == SMALL[c as int - 'a' as int];
    }
    if '0' <= c <= '9' { assert c == FIGURES[c as int - '0' as int]; }
    forall k | 0 <= k < 26 ensures SlugChar(SMALL[k]) { LettersInOrder(k); }
  }

  /** Numerals are written with the most significant figure first. */
  lemma DecimalLaw(n: nat, d: nat)
    requires d < 10
    ensures Decimal(d) == [FIGURES[d]]
    ensures n > 0 ==> Decimal(10 * n + d) == Decimal(n) + [FIGURES[d]]
  {
  }

  /** A cut keeps the front, and as much of it as the limit allows. */
  lemma TakeLaw(s: string, n: nat)
    ensures Take(s, n) <= s && |Take(s, n)| == if |s| < n then |s| else n
  {
  }

  // ---------------------------------------------------------------- the substitution

  predicate InClass(s: string) {
    forall i | 0 <= i < |s| :: SlugChar(s[i])
  }

  predicate OutOfClass(s: string) {
    forall i | 0 <= i < |s| :: !SlugChar(s[i])
  }

  /** A string over the class is left as it is. */
  lemma {:induction false} CollapseKeeps(s: string)
    requires InClass(s)
    ensures Collapse(s) == s
  {
    if s != [] {
      CollapseKeeps(s[..|s| - 1]);
      assert s == s[..|s| - 1] + [s[|s| - 1]];
    }
  }

  /** A run behind a character of the class, or at the start, becomes one hyphen. */
  lemma {:induction false} CollapseEnd(a: string, run: string)
    requires run != [] && OutOfClass(run) && (a != [] ==> SlugChar(a[|a| - 1]))
    ensures Collapse(a + run) == Collapse(a) + "-"
  {
    var s, rest := a + run, run[..|run| - 1];
    assert s[..|s| - 1] == a + rest && s[|s| - 1] == run[|run| - 1];
    if rest == [] {
      assert a + rest == a;
    } else {
      CollapseEnd(a, rest);
      assert (a + rest)[|a + rest| - 1] == rest[|rest| - 1];
    }
  }

  /** Before a character of the class the substitution starts afresh. */
  lemma {:induction false} CollapseOn(a: string, b: string)
    requires b != [] ==> SlugChar(b[0])
    ensures Collapse(a + b) == Collapse(a) + Collapse(b)
  {
    if b == [] {
      assert a + b == a;
    } else {
      var s, rest := a + b, b[..|b| - 1];
      assert s[..|s| - 1] == a + rest && s[|s| - 1] == b[|b| - 1];
      CollapseOn(a, rest);
      if rest != [] { assert (a + rest)[|a + rest| - 1] == rest[|rest| - 1]; }
    }
  }

  /** A maximal run of other characters becomes exactly one hyphen. With CollapseKeeps this determines
      the substitution on every string. */
  lemma CollapseRun(a: string, run: string, b: string)
    requires run != [] && OutOfClass(run)
    requires (a != [] ==> SlugChar(a[|a| - 1])) && (b != [] ==> SlugChar(b[0]))
    ensures Collapse(a + run + b) == Collapse(a) + "-" + Collapse(b)
  {
    CollapseEnd(a, run);
    CollapseOn(a + run, b);
  }

  // ---------------------------------------------------------------- the strip

  predicate Hyphens(s: string) {
    forall i | 0 <= i < |s| :: s[i] == '-'
  }

  /** Neither end is a hyphen. */
  predicate Trimmed(s: string) {
    s != [] ==> s[0] != '-' && s[|s| - 1] != '-'
  }

  lemma {:induction false} StripLeftLaw(left: string, s: string)
    requires Hyphens(left) && (s != [] ==> s[0] != '-')
    ensures StripLeft(left + s) == s
  {
    if left == [] {
      assert left + s == s;
    } else {
      StripLeftLaw(left[1..], s);
      assert (left + s)[1..] == left[1..] + s;
    }
  }

  lemma {:induction false} StripRightLaw(s: string, right: string)
    requires Hyphens(right) && (s != [] ==> s[|s| - 1] != '-')
    ensures StripRight(s + right) == s
  {
    if right == [] {
      assert s + right == s;
    } else {
      var rest := right[..|right| - 1];
      StripRightLaw(s, rest);
      assert (s + right)[..|s + right| - 1] == s + rest;
    }
  }

  /** Stripping removes exactly the hyphens at both ends. */
  lemma StripLaw(left: string, s: string, right: string)
    requires Hyphens(left) && Hyphens(right) && Trimmed(s)
    ensures Strip(left + s + right) == s
  {
    if s == [] {
      StripLeftLaw(left + right, []);
      assert left + s + right == left + right + [];
      StripRightLaw([], []);
    } else {
      StripLeftLaw(left, s + right);
      assert left + s + right == left + (s + right);
      StripRightLaw(s, right);
    }
  }

  // ---------------------------------------------------------------- words

  /** `words[0] runs[0] words[1] ... words[n]`. */
  function Interleaved(words: seq<string>, runs: seq<string>, n: nat): string
    requires n < |words| && n <= |runs|
  {
    if n == 0 then words[0] else Interleaved(words, runs, n - 1) + runs[n - 1] + words[n]
  }

  function Hyphenated(words: seq<string>, n: nat): string
    requires n < |words|
  {
    if n == 0 then words[0] else Hyphenated(words, n - 1) + "-" + words[n]
  }

  /** Nonempty words over the class, with nonempty runs of other characters in between. */
  predicate Alternate(words: seq<string>, runs: seq<string>) {
    && |words| == |runs| + 1
    && (forall i | 0 <= i < |words| :: words[i] != [] && InClass(words[i]))
    && (forall i | 0 <= i < |runs| :: runs[i] != [] && OutOfClass(runs[i]))
  }

  lemma {:induction false} CollapseWords(words: seq<string>, runs: seq<string>, n: nat)
    requires Alternate(words, runs) && n < |words|
    ensures Collapse(Interleaved(words, runs, n)) == Hyphenated(words, n)
    ensures Interleaved(words, runs, n) != [] && Hyphenated(words, n) != []
    ensures var (s, h, w) := (Interleaved(words, runs, n), Hyphenated(words, n), words[n]);
            s[|s| - 1] == h[|h| - 1] == w[|w| - 1] && h[0] == words[0][0]
  {
    CollapseKeeps(words[n]);
    if n > 0 {
      CollapseWords(words, runs, n - 1);
      var before := words[n - 1];
      assert SlugChar(before[|before| - 1]);
      CollapseRun(Interleaved(words, runs, n - 1), runs[n - 1], words[n]);
    }
  }

  /** The slug of words with other characters in between: the words with single hyphens. */
  lemma SlugOfWords(words: seq<string>, runs: seq<string>)
    requires Alternate(words, runs) && words[0][0] != '-' && var w := words[|words| - 1]; w[|w| - 1] != '-'
    ensures Strip(Collapse(Interleaved(words, runs, |runs|))) == Hyphenated(words, |runs|)
  {
    CollapseWords(words, runs, |runs|);
    var slug := Hyphenated(words, |runs|);
    StripLaw([], slug, []);
    assert [] + slug + [] == slug;
  }

  // ---------------------------------------------------------------- names

  /** The host slug: the project's words in small letters, joined by hyphens and cut at forty. */
  lemma HostSlugOfWords(owner: string, project: string, words: seq<string>, runs: seq<string>)
    requires '/' !in project && Alternate(words, runs) && Lower(project) == Interleaved(words, runs, |runs|)
    requires words[0][0] != '-' && var w := words[|words| - 1]; w[|w| - 1] != '-'
    ensures '/' in owner + "/" + project
    ensures HostSlug(owner + "/" + project) == Take(Hyphenated(words, |runs|), 40)
  {
    assert (owner + "/" + project)[|owner|] == '/';
    ProjectPart(owner, project);
    SlugOfWords(words, runs);
  }

  /** The resource slug: the same for the whole repository, whose slash counts as a hyphen, cut at 39. */
  lemma ResourceSlugOfWords(repository: string, words: seq<string>, runs: seq<string>)
    requires Alternate(words, runs) && Replace(Lower(repository), '/', '-') == Interleaved(words, runs, |runs|)
    requires words[0][0] != '-' && var w := words[|words| - 1]; w[|w| - 1] != '-'
    ensures ResourceSlug(repository) == Take(Hyphenated(words, |runs|), 39)
  {
    SlugOfWords(words, runs);
  }

  /** A name that needs no cut reads: demo, slug, eight characters of the digest, pr, number. */
  lemma NameReads(digest: string, repository: string, pr: nat, slug: string)
    requires HexDigest(digest) && slug == ResourceSlug(repository) && 18 + |slug| + |Decimal(pr)| <= 63
    ensures ResourceName(digest, repository, pr) == "demo-" + slug + "-" + digest[..8] + "-pr-" + Decimal(pr)
  {
    CutDropsOnlyDigits(digest, repository, pr);
  }

  lemma HostReads(repository: string, pr: nat, suffix: string, slug: string)
    requires '/' in repository && slug == HostSlug(repository)
    ensures Hostname(repository, pr, suffix) == slug + "-pr-" + Decimal(pr) + "." + suffix
  {
  }

  /** For example: a dot in a project name becomes a hyphen in its hostname and its resource name. */
  lemma DottedProject(digest: string, repository: string, suffix: string)
    requires HexDigest(digest) && repository == "canonical/snapcraft.io"
    ensures '/' in repository && Hostname(repository, 7, suffix) == "snapcraft-io" + "-pr-" + "7" + "." + suffix
    ensures ResourceName(digest, repository, 7) == "demo-" + "canonical-snapcraft-io" + "-" + digest[..8] + "-pr-" + "7"
  {
    HostOfDotted(repository);
    ResourceOfDotted();
    HostReads(repository, 7, suffix, "snapcraft-io");
    assert Decimal(7) == "7";
    NameReads(digest, repository, 7, "canonical-snapcraft-io");
  }

  lemma TwoWords(a: string, run: string, b: string)
    requires a != [] && b != [] && run != [] && InClass(a) && InClass(b) && OutOfClass(run)
    requires a[0] != '-' && b[|b| - 1] != '-'
    ensures Strip(Collapse(a + run + b)) == a + "-" + b
  {
    CollapseKeeps(a);
    CollapseKeeps(b);
    CollapseRun(a, run, b);
    var slug := a + "-" + b;
    StripLaw([], slug, []);
    assert [] + slug + [] == slug;
  }

  lemma HostOfTwo(repository: string, owner: string, project: string, a: string, run: string, b: string)
    requires repository == owner + "/" + project && '/' !in project && Lower(project) == a + run + b
    requires a != [] && b != [] && run != [] && InClass(a) && InClass(b) && OutOfClass(run)
    requires a[0] != '-' && b[|b| - 1] != '-' && |a| + 1 + |b| <= 40
    ensures '/' in repository && HostSlug(repository) == a + "-" + b
  {
    assert repository[|owner|] == '/';
    ProjectPart(owner, project);
    TwoWords(a, run, b);
  }

  lemma HostOfDotted(repository: string)
    requires repository == "canonical/snapcraft.io"
    ensures '/' in repository && HostSlug(repository) == "snapcraft-io"
  {
    assert repository == "canonical" + "/" + "snapcraft.io";
    assert Lower("snapcraft.io") == "snapcraft" + "." + "io";
    HostOfTwo(repository, "canonical", "snapcraft.io", "snapcraft", ".", "io");
  }

  lemma ResourceOfDotted()
    ensures ResourceSlug("canonical/snapcraft.io") == "canonical-snapcraft-io"
  {
    assert Lower("canonical/snapcraft.io") == "canonical/snapcraft.io";
    assert Replace("canonical/snapcraft.io", '/', '-') == "canonical-snapcraft" + "." + "io";
    TwoWords("canonical-snapcraft", ".", "io");
  }
}
