/** What a signature covers and which requests authenticate, stated through a parser of the signed text
    and the outcomes of each guard (src/demo_controller/auth.py). */
module Signing {
  import opened Text
  import opened Store
  import opened Auth
  import opened Slugs

  /** The text up to its first newline, and the text behind it. */
  function Cut(s: string): Option<(string, string)> {
    if s == [] then None
    else if s[0] == '\n' then Some(([], s[1..]))
    else
      match Cut(s[1..])
      case None => None
      case Some((before, behind)) => Some(([s[0]] + before, behind))
  }

  lemma {:induction false} CutAt(a: string, b: string)
    requires OneLine(a)
    ensures Cut(a + "\n" + b) == Some((a, b))
  {
    var s := a + "\n" + b;
    if a == [] {
      assert s[0] == '\n' && s[1..] == b;
    } else {
      CutAt(a[1..], b);
      assert s[0] == a[0] && a[0] in a && s[1..] == a[1..] + "\n" + b;
      assert a == [a[0]] + a[1..];
    }
  }

  lemma {:induction false} CutIsExact(s: string)
    ensures Cut(s).Some? ==> OneLine(Cut(s).value.0) && s == Cut(s).value.0 + "\n" + Cut(s).value.1
  {
    if s != [] && s[0] != '\n' {
      CutIsExact(s[1..]);
      assert s == [s[0]] + s[1..];
    } else if s != [] {
      assert s == [] + "\n" + s[1..];
    }
  }

  /** What a client signs. */
  datatype Message = Message(verb: string, path: string, timestamp: string, nonce: string, body: string)

  /** Reads a signed text: four lines, and the body behind them. */
  function Parse(text: string): Option<Message> {
    match Cut(text)
    case None => None
    case Some((verb, rest1)) =>
      match Cut(rest1)
      case None => None
      case Some((path, rest2)) =>
        match Cut(rest2)
        case None => None
        case Some((timestamp, rest3)) =>
          match Cut(rest3)
          case None => None
          case Some((nonce, body)) => Some(Message(verb, path, timestamp, nonce, body))
  }

  /** HTTP keeps newlines out of all fields but the body. */
  predicate Plain(r: Request) {
    OneLine(Upper(r.verb)) && OneLine(r.path) && OneLine(r.timestampText) && OneLine(r.nonce)
  }

  /** The request as its signature sees it. */
  function MessageOf(r: Request): Message {
    Message(Upper(r.verb), r.path, r.timestampText, r.nonce, r.body)
  }

  /** The signed text reads as verb, path, timestamp, nonce and body, in this order, and is the only
      text that does. */
  lemma SignedText(r: Request, text: string)
    requires Plain(r)
    ensures Parse(text) == Some(MessageOf(r)) <==> text == Canonical(r)
  {
    var rest3 := r.nonce + "\n" + r.body;
    var rest2 := r.timestampText + "\n" + rest3;
    var rest1 := r.path + "\n" + rest2;
    assert Canonical(r) == Upper(r.verb) + "\n" + rest1 by { CanonicalParts(r); }
    CutAt(Upper(r.verb), rest1);
    CutAt(r.path, rest2);
    CutAt(r.timestampText, rest3);
    CutAt(r.nonce, r.body);
    if Parse(text) == Some(MessageOf(r)) { ParsedText(text); }
  }

  lemma CanonicalParts(r: Request)
    ensures Canonical(r) == Upper(r.verb) + "\n" + (r.path + "\n" + (r.timestampText + "\n" + (r.nonce + "\n" + r.body)))
  {
  }

  lemma ParsedText(text: string)
    requires Parse(text).Some?
    ensures var m := Parse(text).value;
            text == m.verb + "\n" + (m.path + "\n" + (m.timestamp + "\n" + (m.nonce + "\n" + m.body)))
  {
    CutIsExact(text);
    var rest1 := Cut(text).value.1;
    CutIsExact(rest1);
    var rest2 := Cut(rest1).value.1;
    CutIsExact(rest2);
    CutIsExact(Cut(rest2).value.1);
  }

  /** Each small letter of a verb becomes its partner, and nothing else changes. */
  lemma UpperLaw(c: char)
    ensures forall k | 0 <= k < 26 :: c == SMALL[k] ==> UpperChar(c) == CAPITALS[k]
    ensures c !in SMALL ==> UpperChar(c) == c
  {
    forall k | 0 <= k < 26 ensures c == SMALL[k] ==> UpperChar(c) == CAPITALS[k] {
      LettersInOrder(k);
    }
    if 'a' <= c <= 'z' {
      LettersInOrder(c as int - 'a' as int);
      assert c == SMALL[c as int - 'a' as int];
    }
  }

  // ---------------------------------------------------------------- which requests pass

  predicate Known(c: AuthConfig, r: Request) {
    Lower(r.repository) in c.credentials && c.credentials[Lower(r.repository)] != ""
  }

  predicate Timely(c: AuthConfig, r: Request, now: int) {
    r.timestamp.Some? && r.timestamp.value - c.maxAge <= now <= r.timestamp.value + c.maxAge
  }

  /** The header is the code itself or the code behind `sha256=`, which is taken off once. */
  predicate Carries(signature: string, code: string) {
    signature == "sha256=" + code || (signature == code && !("sha256=" <= code))
  }

  lemma PrefixOff(signature: string, code: string)
    ensures RemovePrefix(signature, "sha256=") == code <==> Carries(signature, code)
  {
    if "sha256=" <= signature {
      assert signature == "sha256=" + signature[7..];
      assert signature == "sha256=" + code ==> signature[7..] == code;
    }
  }

  /** A request gets past the signature check exactly if its credential exists, its timestamp is fresh,
      and it carries the code of the text with its verb, path, timestamp, nonce and body under its
      credential's key; and otherwise the first guard that fails says so. */
  lemma PrecheckIff(c: AuthConfig, r: Request, now: int, text: string)
    requires Plain(r) && Parse(text) == Some(MessageOf(r))
    ensures var repository := Lower(r.repository);
            var signed := Known(c, r) && Carries(r.signature, c.hmac(c.credentials[repository], text));
            && (Precheck(c, r, now) == Authenticated(repository) <==> Known(c, r) && Timely(c, r, now) && signed)
            && (Precheck(c, r, now) == UnknownCredential <==> !Known(c, r))
            && (Precheck(c, r, now) == InvalidTimestamp <==> Known(c, r) && r.timestamp.None?)
            && (Precheck(c, r, now) == StaleSignature <==> Known(c, r) && r.timestamp.Some? && !Timely(c, r, now))
            && (Precheck(c, r, now) == InvalidSignature <==> Known(c, r) && Timely(c, r, now) && !signed)
  {
    SignedText(r, text);
    if Known(c, r) { PrefixOff(r.signature, c.hmac(c.credentials[Lower(r.repository)], text)); }
  }

  /** What follows for the whole of `authenticate`: who passes, and what is recorded of the others. */
  lemma AuthenticateIff(c: AuthConfig, s: AuthState, r: Request, now: int)
    ensures var repository := Lower(r.repository);
            var (s', outcome) := Authenticate(c, s, r, now);
            var good := Precheck(c, r, now) == Authenticated(repository);
            var room := CheckRate(Times(s, repository), now, c.rateLimit).1;
            var kept := Purge(s.nonces, now, c.retention);
            var key := NonceKey(repository, r.nonce);
            var free := r.nonce != "" && (key in kept ==> kept[key].fingerprint == Fingerprint(c, r));
            && (outcome == Authenticated(repository) <==> good && room && free)
            && (outcome == RateLimited <==> good && !room)
            && (outcome == ReplayedDelivery <==> good && room && !free)
            && (!good ==> outcome == Precheck(c, r, now) && s' == s)
            && (!good || !room || r.nonce == "" ==> s'.nonces == s.nonces)
            && (forall other | other != repository :: other in s.requests <==> other in s'.requests)
            && (forall other | other != repository && other in s.requests :: s'.requests[other] == s.requests[other])
  {
  }
}
