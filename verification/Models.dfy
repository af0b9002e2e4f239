/** Request and configuration validation (src/demo_controller/models.py), with the two regular
    expressions kept as data and given their denotation. */
module Models {
  import opened Text

  // ---------------------------------------------------------------- regular expressions

  datatype Regex =
    | Class(chars: set<char>)
    | Literal(text: string)
    | Cat(first: Regex, second: Regex)
    | Repeat(item: Regex, least: nat, most: Option<nat>)

  /** `fullmatch`. */
  ghost predicate Matches(r: Regex, s: string)
    decreases r, 0
  {
    match r
    case Class(chars) => |s| == 1 && s[0] in chars
    case Literal(text) => s == text
    case Cat(first, second) => exists i | 0 <= i <= |s| :: Matches(first, s[..i]) && Matches(second, s[i..])
    case Repeat(item, least, most) =>
      exists n: nat :: least <= n && (most.Some? ==> n <= most.value) && Times(item, n, s)
  }

  /** `s` is a concatenation of `n` matches of `r`. */
  ghost predicate Times(r: Regex, n: nat, s: string)
    decreases r, n + 1
  {
    if n == 0 then s == []
    else exists i | 0 <= i <= |s| :: Matches(r, s[..i]) && Times(r, n - 1, s[i..])
  }

  predicate Over(chars: set<char>, s: string) {
    forall c | c in s :: c in chars
  }

  lemma {:induction false} ClassTimes(chars: set<char>, n: nat, s: string)
    ensures Times(Class(chars), n, s) <==> |s| == n && Over(chars, s)
  {
    if n > 0 {
      forall i | 0 <= i <= |s| ensures Times(Class(chars), n - 1, s[i..]) <==> |s| - i == n - 1 && Over(chars, s[i..]) {
        ClassTimes(chars, n - 1, s[i..]);
      }
      if |s| == n {
        assert Matches(Class(chars), s[..1]) <==> s[0] in chars;
        assert Over(chars, s) <==> s[0] in chars && Over(chars, s[1..]) by { assert s == [s[0]] + s[1..]; }
      }
    }
  }

  lemma RepeatedClass(chars: set<char>, least: nat, most: Option<nat>, s: string)
    ensures Matches(Repeat(Class(chars), least, most), s)
            <==> least <= |s| && (most.Some? ==> |s| <= most.value) && Over(chars, s)
  {
    forall n: nat ensures Times(Class(chars), n, s) <==> |s| == n && Over(chars, s) {
      ClassTimes(chars, n, s);
    }
    assert Times(Class(chars), |s|, s) <==> Over(chars, s);
  }

  lemma Join(first: Regex, second: Regex, a: string, b: string)
    requires Matches(first, a) && Matches(second, b)
    ensures Matches(Cat(first, second), a + b)
  {
    assert (a + b)[..|a|] == a && (a + b)[|a|..] == b;
  }

  /** Every character of a match of `r` is in `chars`. */
  ghost predicate Alphabet(r: Regex, chars: set<char>)
    decreases r
  {
    match r
    case Class(own) => own <= chars
    case Literal(text) => Over(chars, text)
    case Cat(first, second) => Alphabet(first, chars) && Alphabet(second, chars)
    case Repeat(item, _, _) => Alphabet(item, chars)
  }

  lemma {:induction false} MatchesOver(r: Regex, chars: set<char>, s: string)
    requires Alphabet(r, chars) && Matches(r, s)
    ensures Over(chars, s)
    decreases r, 0
  {
    match r
    case Class(_) =>
    case Literal(_) =>
    case Cat(first, second) =>
      var i :| 0 <= i <= |s| && Matches(first, s[..i]) && Matches(second, s[i..]);
      MatchesOver(first, chars, s[..i]);
      MatchesOver(second, chars, s[i..]);
      assert s == s[..i] + s[i..];
    case Repeat(item, least, most) =>
      var n: nat :| Times(item, n, s);
      TimesOver(item, chars, n, s);
  }

  lemma {:induction false} TimesOver(r: Regex, chars: set<char>, n: nat, s: string)
    requires Alphabet(r, chars) && Times(r, n, s)
    ensures Over(chars, s)
    decreases r, n + 1
  {
    if n > 0 {
      var i :| 0 <= i <= |s| && Matches(r, s[..i]) && Times(r, n - 1, s[i..]);
      MatchesOver(r, chars, s[..i]);
      TimesOver(r, chars, n - 1, s[i..]);
      assert s == s[..i] + s[i..];
    }
  }

  // ---------------------------------------------------------------- the grammars

  const ALNUM: set<char> := set c: char | 'a' <= c <= 'z' || '0' <= c <= '9'
  const WORD: set<char> := ALNUM + {'_', '.', '-'}
  const HEX: set<char> := set c: char | '0' <= c <= '9' || 'a' <= c <= 'f'
  const DIGITS: set<char> := set c: char | '0' <= c <= '9'

  /** `REPOSITORY_RE`, one side of the slash. */
  function PartRegex(most: nat): Regex {
    Cat(Class(ALNUM), Repeat(Class(WORD), 0, Some(most)))
  }

  function RepositoryRegex(): Regex {
    Cat(PartRegex(38), Cat(Literal("/"), PartRegex(99)))
  }

  ghost predicate ValidRepository(s: string) {
    Matches(RepositoryRegex(), s)
  }

  /** The `registry` group of `IMAGE_RE`. */
  function RegistryRegex(): Regex {
    Cat(Repeat(Class(ALNUM + {'.', '-'}), 1, None),
        Repeat(Cat(Literal(":"), Repeat(Class(DIGITS), 1, Some(5))), 0, Some(1)))
  }

  /** The `repo` group of `IMAGE_RE`. */
  function RepoRegex(): Regex {
    Cat(Class(ALNUM),
        Cat(Repeat(Cat(Repeat(Class(WORD), 0, None), Literal("/")), 1, None),
            Repeat(Class(WORD), 1, None)))
  }

  function HexRegex(): Regex {
    Repeat(Class(HEX), 64, Some(64))
  }

  /** `IMAGE_RE.fullmatch(s)` with the given group values. */
  ghost predicate ImageMatch(s: string, registry: string, repo: string, digest: string) {
    && s == registry + "/" + repo + "@sha256:" + digest
    && Matches(RegistryRegex(), registry)
    && Matches(RepoRegex(), repo)
    && Matches(HexRegex(), digest)
  }

  lemma HexMatches(digest: string)
    ensures Matches(HexRegex(), digest) <==> HexDigest(digest)
  {
    RepeatedClass(HEX, 64, Some(64), digest);
  }

  lemma RegistryHasNoSlash(registry: string)
    requires Matches(RegistryRegex(), registry)
    ensures '/' !in registry && '@' !in registry
  {
    MatchesOver(RegistryRegex(), ALNUM + {'.', '-', ':'}, registry);
  }

  lemma RepoHasNoAt(repo: string)
    requires Matches(RepoRegex(), repo)
    ensures '@' !in repo
  {
    MatchesOver(RepoRegex(), WORD + {'/'}, repo);
  }

  lemma RepositorySplit(s: string) returns (i: nat)
    requires ValidRepository(s)
    ensures i < |s| && s[i] == '/'
    ensures Matches(PartRegex(38), s[..i]) && Matches(PartRegex(99), s[i + 1..])
  {
    i :| 0 <= i <= |s| && Matches(PartRegex(38), s[..i]) && Matches(Cat(Literal("/"), PartRegex(99)), s[i..]);
    var tail := s[i..];
    var j :| 0 <= j <= |tail| && Matches(Literal("/"), tail[..j]) && Matches(PartRegex(99), tail[j..]);
    assert tail[..j] == "/";
    assert tail[0] == tail[..j][0] == '/';
    assert tail[1..] == s[i + 1..];
  }

  lemma RepositoryParts(s: string) returns (owner: string, name: string)
    requires ValidRepository(s)
    ensures s == owner + "/" + name
    ensures 1 <= |owner| <= 39 && owner[0] in ALNUM && Over(WORD, owner)
    ensures 1 <= |name| <= 100 && name[0] in ALNUM && Over(WORD, name)
  {
    var i := RepositorySplit(s);
    owner, name := s[..i], s[i + 1..];
    assert s == owner + "/" + name;
    assert 1 <= |owner| <= 39 && owner[0] in ALNUM && Over(WORD, owner) by { PartShape(owner, 38); }
    assert 1 <= |name| <= 100 && name[0] in ALNUM && Over(WORD, name) by { PartShape(name, 99); }
  }

  lemma PartMatches(s: string, most: nat)
    requires 1 <= |s| <= most + 1 && s[0] in ALNUM && Over(WORD, s)
    ensures Matches(PartRegex(most), s)
  {
    assert s == s[..1] + s[1..];
    RepeatedClass(WORD, 0, Some(most), s[1..]);
    Join(Class(ALNUM), Repeat(Class(WORD), 0, Some(most)), s[..1], s[1..]);
  }

  /** A side of a repository: at most so many characters, the first a small letter or a figure. */
  predicate PartOk(s: string, most: nat) {
    && 1 <= |s| <= most && ('a' <= s[0] <= 'z' || '0' <= s[0] <= '9')
    && forall i | 0 <= i < |s| :: 'a' <= s[i] <= 'z' || '0' <= s[i] <= '9' || s[i] == '_' || s[i] == '.' || s[i] == '-'
  }

  lemma PartIff(s: string, most: nat)
    ensures Matches(PartRegex(most), s) <==> PartOk(s, most + 1)
  {
    WordCharacters(s);
    if Matches(PartRegex(most), s) { PartShape(s, most); }
    if PartOk(s, most + 1) { PartMatches(s, most); }
  }

  lemma AroundSlash(first: Regex, second: Regex, s: string, i: nat)
    requires i < |s| && s[i] == '/' && Matches(first, s[..i]) && Matches(second, s[i + 1..])
    ensures Matches(Cat(first, Cat(Literal("/"), second)), s)
  {
    var slash := Literal("/");
    assert Matches(slash, "/");
    Join(slash, second, "/", s[i + 1..]);
    Join(first, Cat(slash, second), s[..i], "/" + s[i + 1..]);
    assert s == s[..i] + ("/" + s[i + 1..]);
  }

  lemma RepositoryFromParts(s: string, i: nat)
    requires i < |s| && s[i] == '/' && PartOk(s[..i], 39) && PartOk(s[i + 1..], 100)
    ensures ValidRepository(s)
  {
    PartIff(s[..i], 38);
    PartIff(s[i + 1..], 99);
    AroundSlash(PartRegex(38), PartRegex(99), s, i);
  }

  lemma PartsOfRepository(s: string) returns (i: nat)
    requires ValidRepository(s)
    ensures i < |s| && s[i] == '/' && PartOk(s[..i], 39) && PartOk(s[i + 1..], 100)
  {
    i := RepositorySplit(s);
    PartIff(s[..i], 38);
    PartIff(s[i + 1..], 99);
  }

  /** What a valid repository is, without the expression: an owner of at most 39 and a name of at most
      100 characters around a slash. */
  lemma RepositoryIff(s: string)
    ensures ValidRepository(s) <==> exists i | 0 <= i < |s| :: s[i] == '/' && PartOk(s[..i], 39) && PartOk(s[i + 1..], 100)
  {
    if ValidRepository(s) {
      var i := PartsOfRepository(s);
    }
    if i: nat :| i < |s| && s[i] == '/' && PartOk(s[..i], 39) && PartOk(s[i + 1..], 100) {
      RepositoryFromParts(s, i);
    }
  }

  lemma WordCharacters(s: string)
    ensures Over(WORD, s) <==>
              forall i | 0 <= i < |s| :: 'a' <= s[i] <= 'z' || '0' <= s[i] <= '9' || s[i] == '_' || s[i] == '.' || s[i] == '-'
    ensures s != [] ==> (s[0] in ALNUM <==> 'a' <= s[0] <= 'z' || '0' <= s[0] <= '9')
  {
    assert forall i | 0 <= i < |s| :: s[i] in s;
  }

  // ---------------------------------------------------------------- registries

  predicate HostOk(s: string) {
    s != [] && forall i | 0 <= i < |s| :: 'a' <= s[i] <= 'z' || '0' <= s[i] <= '9' || s[i] == '.' || s[i] == '-'
  }

  predicate PortOk(s: string) {
    s == [] || (2 <= |s| <= 6 && s[0] == ':' && forall i | 1 <= i < |s| :: '0' <= s[i] <= '9')
  }

  function PortRegex(): Regex {
    Cat(Literal(":"), Repeat(Class(DIGITS), 1, Some(5)))
  }

  lemma PortFromMatch(s: string)
    requires Matches(Repeat(PortRegex(), 0, Some(1)), s)
    ensures PortOk(s)
  {
    var n: nat :| n <= 1 && Times(PortRegex(), n, s);
    if n == 1 { OneTime(PortRegex(), s); }
    if s != [] { OnePort(s); }
  }

  lemma OneTime(r: Regex, s: string)
    ensures Times(r, 1, s) <==> Matches(r, s)
  {
    assert s[..|s|] == s && s[|s|..] == [] && Times(r, 0, s[|s|..]);
    forall i | 0 <= i <= |s| && Matches(r, s[..i]) && Times(r, 0, s[i..]) ensures Matches(r, s) {
      assert s[..i] == s;
    }
  }

  lemma PortToMatch(s: string)
    requires PortOk(s)
    ensures Matches(Repeat(PortRegex(), 0, Some(1)), s)
  {
    if s == [] {
      assert Times(PortRegex(), 0, s);
    } else {
      OnePort(s);
      OneTime(PortRegex(), s);
      assert Times(PortRegex(), 1, s);
    }
  }

  lemma PortMatches(s: string)
    ensures Matches(Repeat(PortRegex(), 0, Some(1)), s) <==> PortOk(s)
  {
    if Matches(Repeat(PortRegex(), 0, Some(1)), s) { PortFromMatch(s); }
    if PortOk(s) { PortToMatch(s); }
  }

  lemma OnePort(s: string)
    ensures Matches(PortRegex(), s) <==> s != [] && PortOk(s)
  {
    if Matches(PortRegex(), s) {
      var i :| 0 <= i <= |s| && Matches(Literal(":"), s[..i]) && Matches(Repeat(Class(DIGITS), 1, Some(5)), s[i..]);
      assert i == 1 && s[0] == s[..i][0] == ':';
      RepeatedClass(DIGITS, 1, Some(5), s[1..]);
      assert forall j | 1 <= j < |s| :: s[j] == s[1..][j - 1] && s[1..][j - 1] in s[1..];
    }
    if s != [] && PortOk(s) {
      RepeatedClass(DIGITS, 1, Some(5), s[1..]);
      Join(Literal(":"), Repeat(Class(DIGITS), 1, Some(5)), ":", s[1..]);
      assert s == ":" + s[1..];
    }
  }

  lemma HostMatches(s: string)
    ensures Matches(Repeat(Class(ALNUM + {'.', '-'}), 1, None), s) <==> HostOk(s)
  {
    RepeatedClass(ALNUM + {'.', '-'}, 1, None, s);
    assert forall j | 0 <= j < |s| :: s[j] in s;
  }

  /** What a registry is, without the expression: a host, and perhaps a port of at most five figures. */
  lemma RegistryIff(s: string)
    ensures Matches(RegistryRegex(), s) <==> exists i | 0 <= i <= |s| :: HostOk(s[..i]) && PortOk(s[i..])
  {
    forall i | 0 <= i <= |s|
      ensures Matches(Repeat(Class(ALNUM + {'.', '-'}), 1, None), s[..i]) <==> HostOk(s[..i])
      ensures Matches(Repeat(PortRegex(), 0, Some(1)), s[i..]) <==> PortOk(s[i..])
    {
      HostMatches(s[..i]);
      PortMatches(s[i..]);
    }
  }

  lemma JoinedCharacters(owner: string, name: string)
    requires Over(WORD, owner) && Over(WORD, name)
    ensures '/' in owner + "/" + name && '@' !in owner + "/" + name
  {
    var s := owner + "/" + name;
    assert s[|owner|] == '/';
    assert forall c | c in s :: c in owner || c == '/' || c in name;
  }

  lemma RepositoryCharacters(s: string)
    requires ValidRepository(s)
    ensures '/' in s && '@' !in s
  {
    var owner, name := RepositoryParts(s);
    JoinedCharacters(owner, name);
  }

  lemma PartShape(s: string, most: nat)
    requires Matches(PartRegex(most), s)
    ensures 1 <= |s| <= most + 1 && s[0] in ALNUM && Over(WORD, s)
  {
    var i :| 0 <= i <= |s| && Matches(Class(ALNUM), s[..i]) && Matches(Repeat(Class(WORD), 0, Some(most)), s[i..]);
    RepeatedClass(WORD, 0, Some(most), s[i..]);
    assert s == s[..i] + s[i..];
  }

  lemma Once(r: Regex, s: string)
    requires Matches(r, s)
    ensures Matches(Repeat(r, 1, None), s)
  {
    assert s[..|s|] == s && s[|s|..] == [];
    assert Times(r, 0, s[|s|..]);
    assert Times(r, 1, s);
  }

  lemma Regroup(owner: string, name: string)
    requires owner != []
    ensures owner + "/" + name == owner[..1] + (owner[1..] + "/" + name)
  {
    assert owner == owner[..1] + owner[1..];
  }

  lemma RepoJoin(first: string, segment: string, last: string)
    requires Matches(Class(ALNUM), first)
    requires Matches(Repeat(Class(WORD), 0, None), segment)
    requires Matches(Repeat(Class(WORD), 1, None), last)
    ensures Matches(RepoRegex(), first + (segment + "/" + last))
  {
    var word := Repeat(Class(WORD), 0, None);
    Join(word, Literal("/"), segment, "/");
    Once(Cat(word, Literal("/")), segment + "/");
    var segments, ending := Repeat(Cat(word, Literal("/")), 1, None), Repeat(Class(WORD), 1, None);
    Join(segments, ending, segment + "/", last);
    Join(Class(ALNUM), Cat(segments, ending), first, segment + "/" + last);
  }

  lemma PartsAreRepo(owner: string, name: string)
    requires owner != [] && owner[0] in ALNUM && Over(WORD, owner)
    requires name != [] && Over(WORD, name)
    ensures Matches(RepoRegex(), owner + "/" + name)
  {
    RepeatedClass(WORD, 0, None, owner[1..]);
    RepeatedClass(WORD, 1, None, name);
    RepoJoin(owner[..1], owner[1..], name);
    Regroup(owner, name);
  }

  /** Every valid repository has the shape that the image expression asks of its `repo` group. */
  lemma RepositoryIsRepo(s: string)
    requires ValidRepository(s)
    ensures Matches(RepoRegex(), s)
  {
    var owner, name := RepositoryParts(s);
    PartsAreRepo(owner, name);
  }

  /** Two ways of cutting a string at its first `c` agree. */
  lemma FirstAt(a1: string, b1: string, a2: string, b2: string, c: char)
    requires c !in a1 && c !in a2
    requires a1 + [c] + b1 == a2 + [c] + b2
    ensures a1 == a2 && b1 == b2
  {
    var s := a1 + [c] + b1;
    assert s[|a1|] == c && s[|a2|] == c;
    assert forall i | 0 <= i < |a1| :: s[i] == a1[i] && a1[i] in a1;
    assert forall i | 0 <= i < |a2| :: s[i] == a2[i] && a2[i] in a2;
    assert a1 == s[..|a1|] && a2 == s[..|a2|];
    assert b1 == s[|a1| + 1..] && b2 == s[|a2| + 1..];
  }

  /** A string with one `c` can be cut there in one way only. */
  lemma OnlyAt(a1: string, b1: string, a2: string, b2: string, c: char)
    requires c !in a2 && c !in b2
    requires a1 + [c] + b1 == a2 + [c] + b2
    ensures a1 == a2 && b1 == b2
  {
    var s := a1 + [c] + b1;
    assert s[|a1|] == c;
    assert forall i | 0 <= i < |a2| :: s[i] == a2[i] && a2[i] in a2;
    assert forall i | |a2| < i < |s| :: s[i] == b2[i - |a2| - 1] && b2[i - |a2| - 1] in b2;
    assert a1 == s[..|a1|] && a2 == s[..|a2|];
    assert b1 == s[|a1| + 1..] && b2 == s[|a2| + 1..];
  }

  lemma MarkSplit(front: string, digest: string)
    ensures front + "@sha256:" + digest == front + "@" + ("sha256:" + digest)
  {
    assert "@sha256:" == "@" + "sha256:";
  }

  lemma HexHasNoAt(digest: string)
    requires HexDigest(digest)
    ensures '@' !in "sha256:" + digest
  {
    assert forall c | c in "sha256:" + digest :: c in "sha256:" || c in digest;
  }

  lemma TailEqual(d1: string, d2: string)
    requires "sha256:" + d1 == "sha256:" + d2
    ensures d1 == d2
  {
    assert ("sha256:" + d1)[7..] == d1 && ("sha256:" + d2)[7..] == d2;
  }

  /** The expression leaves no choice of groups. */
  lemma ImageGroupsUnique(s: string, g1: string, r1: string, d1: string, g2: string, r2: string, d2: string)
    requires ImageMatch(s, g1, r1, d1) && ImageMatch(s, g2, r2, d2)
    ensures g1 == g2 && r1 == r2 && d1 == d2
  {
    RegistryHasNoSlash(g1);
    RegistryHasNoSlash(g2);
    RepoHasNoAt(r1);
    RepoHasNoAt(r2);
    NoAt(g1, r1);
    NoAt(g2, r2);
    MarkSplit(g1 + "/" + r1, d1);
    MarkSplit(g2 + "/" + r2, d2);
    FirstAt(g1 + "/" + r1, "sha256:" + d1, g2 + "/" + r2, "sha256:" + d2, '@');
    TailEqual(d1, d2);
    FirstAt(g1, r1, g2, r2, '/');
  }

  lemma NoAt(registry: string, path: string)
    requires '@' !in registry && '@' !in path
    ensures '@' !in registry + "/" + path
  {
    assert forall c | c in registry + "/" + path :: c in registry || c in "/" || c in path;
  }

  // ---------------------------------------------------------------- deploy requests

  const MAX_PR := 2_147_483_647

  datatype DeployRequest = DeployRequest(
    repository: string, pr: nat, commitSha: string, image: string, deliveryId: string)

  ghost predicate ValidDeliveryId(s: string) {
    8 <= |s| <= 128 && forall c | c in s ::
      'A' <= c <= 'Z' || 'a' <= c <= 'z' || '0' <= c <= '9' || c in {'_', '.', ':', '-'}
  }

  ghost predicate ValidSha(s: string) {
    |s| == 40 && forall c | c in s :: IsHex(c)
  }

  /** `validate_image_namespace`: the expression matches and its `repo` group is the repository. */
  ghost predicate ImageNamesRepository(image: string, repository: string) {
    exists registry, digest :: ImageMatch(Lower(image), registry, repository, digest)
  }

  /** A request the model accepts, after its validators lowered repository and commit. */
  ghost predicate ValidDeploy(r: DeployRequest) {
    && ValidRepository(r.repository)
    && 1 <= r.pr <= MAX_PR
    && ValidSha(r.commitSha)
    && ValidDeliveryId(r.deliveryId)
    && ImageNamesRepository(r.image, r.repository)
  }

  datatype DestroyRequest = DestroyRequest(repository: string, pr: nat, deliveryId: string)

  ghost predicate ValidDestroy(r: DestroyRequest) {
    ValidRepository(r.repository) && 1 <= r.pr <= MAX_PR && ValidDeliveryId(r.deliveryId)
  }

  /** A JSON value: what a string field and an integer field make of it. */
  datatype JsonValue = JsonValue(text: Option<string>, whole: Option<int>)

  const DEPLOY_FIELDS := {"repository", "pr", "commit_sha", "image", "delivery_id"}
  const DESTROY_FIELDS := {"repository", "pr", "delivery_id"}

  /** The model `DeployRequest`, given the fields of a JSON object: all are required and no other is
      allowed; repository and commit are lowered before their checks. */
  ghost function DeployModel(json: Option<map<string, JsonValue>>): Option<DeployRequest> {
    if json.None? || json.value.Keys != DEPLOY_FIELDS then None
    else
      var (repository, pr, sha, image, id) :=
        (json.value["repository"].text, json.value["pr"].whole, json.value["commit_sha"].text,
         json.value["image"].text, json.value["delivery_id"].text);
      if repository.None? || pr.None? || sha.None? || image.None? || id.None? || pr.value < 1 then None
      else
        var r := DeployRequest(Lower(repository.value), pr.value, Lower(sha.value), image.value, id.value);
        if ValidDeploy(r) then Some(r) else None
  }

  ghost function DestroyModel(json: Option<map<string, JsonValue>>): Option<DestroyRequest> {
    if json.None? || json.value.Keys != DESTROY_FIELDS then None
    else
      var (repository, pr, id) := (json.value["repository"].text, json.value["pr"].whole, json.value["delivery_id"].text);
      if repository.None? || pr.None? || id.None? || pr.value < 1 then None
      else
        var r := DestroyRequest(Lower(repository.value), pr.value, id.value);
        if ValidDestroy(r) then Some(r) else None
  }

  /** No body is both a deploy and a destroy request. */
  lemma DisjointModels(json: Option<map<string, JsonValue>>)
    ensures DeployModel(json).None? || DestroyModel(json).None?
  {
    assert "image" in DEPLOY_FIELDS && "image" !in DESTROY_FIELDS;
  }

  lemma ModelsValidate(json: Option<map<string, JsonValue>>)
    ensures DeployModel(json).Some? ==> ValidDeploy(DeployModel(json).value)
    ensures DestroyModel(json).Some? ==> ValidDestroy(DestroyModel(json).value)
  {
  }

  /** The handler's registry check. */
  predicate HasImagePrefix(registry: string, path: string, image: string) {
    registry + "/" + path + "@sha256:" <= Lower(image)
  }

  /** The only images allowed: registry/repository@sha256: and sixty-four hex digits. */
  ghost predicate AuthorisedImage(registry: string, repository: string, image: string) {
    exists digest :: HexDigest(digest) && Lower(image) == registry + "/" + repository + "@sha256:" + digest
  }

  /** A prefix up to the digest mark, of an image whose front part has no `@`, is that front part. */
  lemma PrefixIsFront(prefix: string, s: string, front: string, digest: string)
    requires s == front + "@sha256:" + digest && prefix + "@sha256:" <= s
    requires '@' !in front && HexDigest(digest)
    ensures prefix == front
  {
    var rest := s[|prefix| + 8..];
    assert s == prefix + "@sha256:" + rest;
    MarkSplit(prefix, rest);
    MarkSplit(front, digest);
    HexHasNoAt(digest);
    OnlyAt(prefix, "sha256:" + rest, front, "sha256:" + digest, '@');
  }

  lemma SameEnd(g1: string, g2: string, path: string)
    requires g1 + "/" + path == g2 + "/" + path
    ensures g1 == g2
  {
    var n := |g1 + "/" + path| - |path| - 1;
    assert (g1 + "/" + path)[..n] == g1 && (g2 + "/" + path)[..n] == g2;
  }

  lemma SameStart(registry: string, p1: string, p2: string)
    requires registry + "/" + p1 == registry + "/" + p2
    ensures p1 == p2
  {
    var n := |registry| + 1;
    assert (registry + "/" + p1)[n..] == p1 && (registry + "/" + p2)[n..] == p2;
  }

  /** Validator and handler together accept an image exactly when it is an immutable digest of
      this repository in the configured registry. */
  lemma AcceptedImageIff(registry: string, repository: string, image: string)
    requires ValidRepository(repository)
    ensures ImageNamesRepository(image, repository) && HasImagePrefix(registry, repository, image)
            <==> Matches(RegistryRegex(), registry) && AuthorisedImage(registry, repository, image)
  {
    if ImageNamesRepository(image, repository) && HasImagePrefix(registry, repository, image) {
      AcceptedIsAuthorised(registry, repository, image);
    }
    if Matches(RegistryRegex(), registry) && AuthorisedImage(registry, repository, image) {
      var d :| HexDigest(d) && Lower(image) == registry + "/" + repository + "@sha256:" + d;
      HexMatches(d);
      RepositoryIsRepo(repository);
      assert ImageMatch(Lower(image), registry, repository, d);
    }
  }

  lemma AcceptedIsAuthorised(registry: string, repository: string, image: string)
    requires ValidRepository(repository)
    requires ImageNamesRepository(image, repository) && HasImagePrefix(registry, repository, image)
    ensures Matches(RegistryRegex(), registry) && AuthorisedImage(registry, repository, image)
  {
    var g, d :| ImageMatch(Lower(image), g, repository, d);
    HexMatches(d);
    RegistryHasNoSlash(g);
    RepositoryCharacters(repository);
    NoAt(g, repository);
    PrefixIsFront(registry + "/" + repository, Lower(image), g + "/" + repository, d);
    SameEnd(registry, g, repository);
  }

  /** For an authorised image the reconciler's namespace check is an equality test on repositories. */
  lemma NamespaceCheckIff(registry: string, repository: string, image: string, namespace: string)
    requires ValidRepository(repository) && Matches(RegistryRegex(), registry)
    requires AuthorisedImage(registry, repository, image)
    ensures HasImagePrefix(registry, namespace, image) <==> namespace == repository
  {
    if HasImagePrefix(registry, namespace, image) {
      var d :| HexDigest(d) && Lower(image) == registry + "/" + repository + "@sha256:" + d;
      RegistryHasNoSlash(registry);
      RepositoryCharacters(repository);
      NoAt(registry, repository);
      PrefixIsFront(registry + "/" + namespace, Lower(image), registry + "/" + repository, d);
      SameStart(registry, namespace, repository);
    }
  }

  // ---------------------------------------------------------------- project configuration

  datatype ProjectConfig = ProjectConfig(
    enabled: bool,
    environment: map<string, string>,
    secrets: map<string, string>,
    port: int,
    healthPath: string,
    imageNamespace: Option<string>)

  /** `ENV_RE`: capital letters, figures and underscores, not a figure first. */
  predicate EnvName(s: string) {
    && s != [] && ('A' <= s[0] <= 'Z' || s[0] == '_')
    && forall i | 0 <= i < |s| :: 'A' <= s[i] <= 'Z' || '0' <= s[i] <= '9' || s[i] == '_'
  }

  predicate EnvironmentOk(env: map<string, string>) {
    |env| <= 100 && forall name | name in env :: EnvName(name) && |env[name]| <= 16384
  }

  predicate TwoDots(s: string, i: nat) {
    i + 1 < |s| && s[i] == '.' && s[i + 1] == '.'
  }

  predicate PathChar(c: char) {
    'a' <= c <= 'z' || 'A' <= c <= 'Z' || '0' <= c <= '9' || c == '_' || c == '.' || c == '/' || c == '~' || c == '-'
  }

  /** A path of at most 256 characters without "..". */
  predicate HealthPathOk(s: string) {
    && 1 <= |s| <= 256 && s[0] == '/'
    && (forall i | 0 <= i < |s| :: PathChar(s[i]))
    && forall i | 0 <= i < |s| :: !TwoDots(s, i)
  }

  /** What the configuration validators accept. */
  predicate ValidConfig(c: ProjectConfig) {
    && c.enabled
    && 1024 <= c.port <= 65535
    && EnvironmentOk(c.environment) && EnvironmentOk(c.secrets)
    && HealthPathOk(c.healthPath)
    && c.environment.Keys !! c.secrets.Keys
  }

  const NAME_START: set<char> := (set c: char | 'A' <= c <= 'Z') + {'_'}
  const NAME_PART: set<char> := (set c: char | 'A' <= c <= 'Z' || '0' <= c <= '9') + {'_'}
  const PATH: set<char> := (set c: char | 'a' <= c <= 'z' || 'A' <= c <= 'Z' || '0' <= c <= '9') + {'_', '.', '/', '~', '-'}

  function EnvRegex(): Regex {
    Cat(Class(NAME_START), Repeat(Class(NAME_PART), 0, None))
  }

  function HealthRegex(): Regex {
    Cat(Literal("/"), Repeat(Class(PATH), 0, Some(255)))
  }

  lemma EnvNameIff(s: string)
    ensures EnvName(s) <==> Matches(EnvRegex(), s)
  {
    if Matches(EnvRegex(), s) {
      var i :| 0 <= i <= |s| && Matches(Class(NAME_START), s[..i]) && Matches(Repeat(Class(NAME_PART), 0, None), s[i..]);
      RepeatedClass(NAME_PART, 0, None, s[1..]);
      assert i == 1 && s[..1][0] == s[0];
      assert forall j | 1 <= j < |s| :: s[j] == s[1..][j - 1] && s[1..][j - 1] in s[1..];
    }
    if EnvName(s) {
      RepeatedClass(NAME_PART, 0, None, s[1..]);
      Join(Class(NAME_START), Repeat(Class(NAME_PART), 0, None), s[..1], s[1..]);
      assert s == s[..1] + s[1..];
    }
  }

  lemma PathCharacters(s: string)
    ensures Over(PATH, s) <==> forall i | 0 <= i < |s| :: PathChar(s[i])
  {
    assert forall c :: c in PATH <==> PathChar(c);
    assert forall i | 0 <= i < |s| :: s[i] in s;
  }

  lemma HealthFromMatch(s: string)
    requires Matches(HealthRegex(), s)
    ensures 1 <= |s| <= 256 && s[0] == '/' && Over(PATH, s[1..])
  {
    var i :| 0 <= i <= |s| && Matches(Literal("/"), s[..i]) && Matches(Repeat(Class(PATH), 0, Some(255)), s[i..]);
    assert i == 1 && s[..1][0] == s[0];
    RepeatedClass(PATH, 0, Some(255), s[1..]);
  }

  lemma HealthToMatch(s: string)
    requires 1 <= |s| <= 256 && s[0] == '/' && Over(PATH, s[1..])
    ensures Matches(HealthRegex(), s)
  {
    RepeatedClass(PATH, 0, Some(255), s[1..]);
    Join(Literal("/"), Repeat(Class(PATH), 0, Some(255)), "/", s[1..]);
    assert s == "/" + s[1..];
  }

  lemma HealthPathIff(s: string)
    ensures HealthPathOk(s) <==> Matches(HealthRegex(), s) && forall i | 0 <= i < |s| :: !TwoDots(s, i)
  {
    PathCharacters(s);
    if 1 <= |s| && s[0] == '/' {
      assert Over(PATH, s) <==> Over(PATH, s[1..]) by { assert s == ['/'] + s[1..] && PathChar('/') && '/' in PATH; }
      if |s| <= 256 && Over(PATH, s[1..]) { HealthToMatch(s); }
    }
    if Matches(HealthRegex(), s) { HealthFromMatch(s); }
  }

  /** What a valid configuration is, by the validators' expressions and limits. */
  lemma ConfigIff(c: ProjectConfig)
    ensures ValidConfig(c) <==>
              && c.enabled && c.port >= 1024 && c.port < 65536
              && |c.environment| <= 100 && |c.secrets| <= 100
              && (forall name | name in c.environment :: Matches(EnvRegex(), name) && |c.environment[name]| <= 16384)
              && (forall name | name in c.secrets :: Matches(EnvRegex(), name) && |c.secrets[name]| <= 16384)
              && Matches(HealthRegex(), c.healthPath) && (forall i | 0 <= i < |c.healthPath| :: !TwoDots(c.healthPath, i))
              && (forall name | name in c.environment :: name !in c.secrets)
  {
    forall name ensures EnvName(name) <==> Matches(EnvRegex(), name) { EnvNameIff(name); }
    HealthPathIff(c.healthPath);
  }
}
