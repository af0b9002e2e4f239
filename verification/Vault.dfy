/** The Vault client: which request is sent when, on which connection pool, and with which token
    (src/demo_controller/vault.py). The network and the monotonic clock are a `World`: the outcome
    of the n-th transmission and the n-th clock reading are fixed, but arbitrary. */
module Vault {
  import opened Text
  import opened Models

  /** The `auth` member of a response; a field of the wrong type is None. `NoAuth` stands for a body
      whose parsing raises KeyError, TypeError or ValueError, `NotAMapping` for a member without `get`. */
  datatype AuthBody = NoAuth | NotAMapping | AuthFields(token: Option<string>, lease: Option<int>, renewable: bool)

  datatype DataBody = BadData | Data(config: ProjectConfig, version: int)

  /** What one `client.request` leads to. Pre-send failures are PoolTimeout, ConnectTimeout,
      ConnectError and ProxyError; ambiguous ones are all other transport failures. */
  datatype Outcome =
    | Response(status: int, auth: AuthBody, data: DataBody)
    | PreSend(reason: string)
    | Ambiguous(reason: string)
    | RequestFailure(reason: string)  // another httpx.HTTPError
    | ValueFailure(reason: string)    // KeyError, TypeError or ValueError
    | OtherFailure(reason: string)

  datatype Kind = Renew | Login | Fetch(repository: string)

  /** One transmission: the pool it used, its place in its request, the token header it carried. */
  datatype Send = Send(client: nat, kind: Kind, header: Option<string>, attempt: nat, outcome: Outcome)

  datatype World = World(answer: nat -> Outcome, clock: nat -> real)

  /** The connection pools and the transmissions made on them: `client` is the present pool,
      `created` counts the pools the factory made, `closed` lists the close attempts. */
  datatype Wire = Wire(owned: bool, client: nat, created: nat, closed: seq<nat>, sends: seq<Send>)

  /** The client's fields; `readings` counts the readings of the clock. */
  datatype Client = Client(
    roleId: string, secretId: string,
    token: Option<string>, expiresAt: real, renewable: bool,
    wire: Wire, readings: nat)

  /** `_error_detail`: the status of an answer, or the name of an exception. */
  datatype Detail = HttpStatus(status: int) | Named(exception: string)

  datatype VaultError =
    | Authentication(detail: Detail)
    | MissingCredentials
    | InvalidAuthentication
    | NotConfigured
    | Lookup(detail: Detail)
    | InvalidProject

  datatype Exception =
    | Transport(detail: Detail)
    | Http(detail: Detail)
    | Value(detail: Detail)
    | Reported(error: VaultError)
    | Other(reason: string)

  datatype Answer = Returned(config: ProjectConfig, version: int) | Raised(error: Exception)

  predicate TransportFailure(o: Outcome) {
    o.PreSend? || o.Ambiguous?
  }

  /** `raise_for_status` does not raise. */
  predicate Success(o: Outcome) {
    o.Response? && 200 <= o.status <= 299
  }

  /** A usable authentication response. */
  predicate Grants(o: Outcome) {
    Success(o) && o.auth.AuthFields? && o.auth.token.Some? && o.auth.lease.Some?
  }

  predicate Refused(o: Outcome) {
    o.Response? && (o.status == 401 || o.status == 403)
  }

  predicate Truthy(token: Option<string>) {
    token.Some? && token.value != ""
  }

  /** `_headers`: an empty token is not sent. */
  function Header(token: Option<string>): Option<string> {
    if Truthy(token) then token else None
  }

  // ---------------------------------------------------------------- requests

  /** One attempt; a transport failure of an owned client replaces and closes its pool. */
  function Attempt(w: World, v: Wire, kind: Kind, header: Option<string>, attempt: nat): (v': Wire)
    ensures v'.sends == v.sends + [Send(v.client, kind, header, attempt, w.answer(|v.sends|))]
  {
    var outcome := w.answer(|v.sends|);
    var sent := v.(sends := v.sends + [Send(v.client, kind, header, attempt, outcome)]);
    if TransportFailure(outcome) && v.owned then
      sent.(client := v.created, created := v.created + 1, closed := v.closed + [v.client])
    else
      sent
  }

  /** `_request`: a second attempt only for a pre-send failure of an owned client. */
  function Request(w: World, v: Wire, kind: Kind, header: Option<string>): (v': Wire)
    ensures |v.sends| < |v'.sends| <= |v.sends| + 2 && v.sends <= v'.sends
  {
    var first := Attempt(w, v, kind, header, 0);
    if v.owned && w.answer(|v.sends|).PreSend? then Attempt(w, first, kind, header, 1) else first
  }

  function Last(v: Wire): Outcome
    requires v.sends != []
  {
    v.sends[|v.sends| - 1].outcome
  }

  // ---------------------------------------------------------------- tokens

  /** What a request that did not succeed raises. */
  function ExceptionOf(o: Outcome): Exception
    requires !Success(o)
  {
    match o
    case Response(status, _, _) => Http(HttpStatus(status))
    case PreSend(reason) => Transport(Named(reason))
    case Ambiguous(reason) => Transport(Named(reason))
    case RequestFailure(reason) => Http(Named(reason))
    case ValueFailure(reason) => Value(Named(reason))
    case OtherFailure(reason) => Other(reason)
  }

  /** A renewal or login. */
  function Authenticate(w: World, v: Client, kind: Kind, header: Option<string>): (Client, Option<Exception>) {
    var wire := Request(w, v.wire, kind, header);
    var v', o := v.(wire := wire), Last(wire);
    if !Success(o) then (v', Some(ExceptionOf(o)))
    else if o.auth.NoAuth? then (v', Some(Value(Named("KeyError"))))
    else SetToken(w, v', o.auth)
  }

  /** `_set_token`. */
  function SetToken(w: World, v: Client, auth: AuthBody): (Client, Option<Exception>) {
    match auth
    case AuthFields(Some(token), Some(lease), renewable) =>
      (v.(token := Some(token), expiresAt := w.clock(v.readings) + lease as real, renewable := renewable,
          readings := v.readings + 1), None)
    case AuthFields(_, _, _) => (v, Some(Reported(InvalidAuthentication)))
    case _ => (v, Some(Other("AttributeError")))
  }

  /** httpx.HTTPError, KeyError, TypeError and ValueError. */
  predicate Caught(e: Exception) {
    e.Transport? || e.Http? || e.Value?
  }

  function LogIn(w: World, v: Client): (Client, Option<Exception>) {
    if v.roleId == "" || v.secretId == "" then (v, Some(Reported(MissingCredentials)))
    else
      var (v', raised) := Authenticate(w, v, Login, None);
      (v', if raised.Some? && Caught(raised.value) then Some(Reported(Authentication(raised.value.detail))) else raised)
  }

  /** The token is set and has more than 30 seconds left. */
  predicate Cached(w: World, v: Client) {
    Truthy(v.token) && w.clock(v.readings) < v.expiresAt - 30.0
  }

  function Checked(v: Client): Client {
    if Truthy(v.token) then v.(readings := v.readings + 1) else v
  }

  /** `_ensure_token`. */
  function EnsureToken(w: World, v: Client): (Client, Option<Exception>) {
    if Cached(w, v) then (Checked(v), None)
    else if Truthy(v.token) && v.renewable then
      var (v', raised) := Authenticate(w, Checked(v), Renew, Header(v.token));
      AfterRenewal(w, v', raised)
    else
      LogIn(w, Checked(v))
  }

  /** A renewal that Vault answered, but did not grant, makes way for a login. */
  function AfterRenewal(w: World, v: Client, raised: Option<Exception>): (Client, Option<Exception>) {
    if raised.None? || !Caught(raised.value) then (v, raised)
    else if raised.value.Transport? then (v, Some(Reported(Authentication(raised.value.detail))))
    else LogIn(w, v.(token := None))
  }

  // ---------------------------------------------------------------- lookups

  function Interpret(o: Outcome): Answer {
    if o.Response? && o.status == 404 then Raised(Reported(NotConfigured))
    else if !Success(o) then Raised(Translate(ExceptionOf(o)))
    else if o.data.Data? && ValidConfig(o.data.config) then Returned(o.data.config, o.data.version)
    else Raised(Reported(InvalidProject))
  }

  /** The `except` clauses of `project`. */
  function Translate(e: Exception): Exception {
    match e
    case Transport(detail) => Reported(Lookup(detail))
    case Http(detail) => Reported(Lookup(detail))
    case Value(_) => Reported(InvalidProject)
    case _ => e
  }

  /** `project`. */
  function Project(w: World, v: Client, repository: string): (Client, Answer) {
    var (v', raised) := EnsureToken(w, v);
    WithToken(w, v', raised, repository)
  }

  /** `project` once `_ensure_token` has ended. */
  function WithToken(w: World, v: Client, raised: Option<Exception>, repository: string): (Client, Answer) {
    if raised.Some? then (v, Raised(raised.value))
    else if '/' !in repository then (v, Raised(Value(Named("ValueError"))))
    else LookUp(w, v, repository)
  }

  function LookUp(w: World, v: Client, repository: string): (Client, Answer) {
    var v' := Look(w, v, repository);
    if Refused(Last(v'.wire)) then LookAgain(w, v'.(token := None, expiresAt := 0.0), repository)
    else (v', Interpret(Last(v'.wire)))
  }

  /** After Vault refused the token. */
  function LookAgain(w: World, v: Client, repository: string): (Client, Answer) {
    var (v1, raised) := EnsureToken(w, v);
    if raised.Some? then (v1, Raised(Translate(raised.value)))
    else
      var v2 := Look(w, v1, repository);
      (v2, Interpret(Last(v2.wire)))
  }

  /** The GET with the present token. */
  function Look(w: World, v: Client, repository: string): (v': Client)
    ensures v'.wire.sends != []
  {
    v.(wire := Request(w, v.wire, Fetch(repository), Header(v.token)))
  }

  // ---------------------------------------------------------------- at most once

  /** A transmission that may have reached Vault. */
  predicate MayHaveReached(send: Send) {
    !send.outcome.PreSend?
  }

  /** A request is one attempt, or two of which the first never left the machine; so at most one
      can have reached Vault. An injected client gets one attempt. */
  lemma AtMostOnce(w: World, v: Wire, kind: Kind, header: Option<string>)
    ensures var sends := Request(w, v, kind, header).sends; var n := |v.sends|;
            && (|sends| == n + 2 <==> v.owned && w.answer(n).PreSend?)
            && (forall i | n <= i < |sends| - 1 :: !MayHaveReached(sends[i]))
            && (forall i | n <= i < |sends| :: sends[i].kind == kind && sends[i].header == header)
  {
    var first := Attempt(w, v, kind, header, 0);
    assert first.sends[|v.sends|].outcome == w.answer(|v.sends|);
  }

  /** The transport failures among the first `n` transmissions. */
  function TransportFailures(sends: seq<Send>, n: nat): nat
    requires n <= |sends|
  {
    if n == 0 then 0 else TransportFailures(sends, n - 1) + if TransportFailure(sends[n - 1].outcome) then 1 else 0
  }

  /** The token of the last usable authentication response among the first `n`. */
  function LastGrant(sends: seq<Send>, n: nat): Option<string>
    requires n <= |sends|
  {
    if n == 0 then None
    else if !sends[n - 1].kind.Fetch? && Grants(sends[n - 1].outcome) then sends[n - 1].outcome.auth.token
    else LastGrant(sends, n - 1)
  }

  /** The token that the history granted last. */
  function Granted(v: Wire): Option<string> {
    LastGrant(v.sends, |v.sends|)
  }

  lemma {:induction false} Stable(a: seq<Send>, b: seq<Send>, n: nat)
    requires n <= |a| && a <= b
    ensures TransportFailures(a, n) == TransportFailures(b, n) && LastGrant(a, n) == LastGrant(b, n)
  {
    if n > 0 { Stable(a, b, n - 1); }
  }

  /** The pools of an owned client: one at first and one more for each transport failure, and each
      pool before the present one closed exactly once. An injected client is left alone. */
  predicate PoolsOk(v: Wire) {
    if v.owned then
      && v.created == 1 + TransportFailures(v.sends, |v.sends|)
      && v.client == v.created - 1 == |v.closed|
      && forall i | 0 <= i < |v.closed| :: v.closed[i] == i
    else
      v.client == v.created == 0 && v.closed == []
  }

  /** A second attempt follows a first one that never left, repeats it, and uses a new pool. */
  predicate AttemptOk(owned: bool, sends: seq<Send>, i: nat)
    requires i < |sends|
  {
    sends[i].attempt == 0 ||
    (&& owned && i > 0 && sends[i].attempt == 1
     && var last := sends[i - 1];
        last.attempt == 0 && !MayHaveReached(last) && sends[i] == Send(last.client + 1, last.kind, last.header, 1, sends[i].outcome))
  }

  /** A login carries no token; a renewal or lookup carries the last one Vault granted. */
  predicate HeaderOk(sends: seq<Send>, i: nat)
    requires i < |sends|
  {
    var grant := LastGrant(sends, i);
    if sends[i].kind.Login? then sends[i].header == None
    else grant.Some? && sends[i].header == if grant.value == "" then None else grant
  }

  predicate HistoryOk(owned: bool, sends: seq<Send>) {
    forall i | 0 <= i < |sends| :: AttemptOk(owned, sends, i) && HeaderOk(sends, i)
  }

  predicate WireOk(v: Wire) {
    PoolsOk(v) && HistoryOk(v.owned, v.sends)
  }

  /** Between requests: the token in force is the one Vault granted last. */
  predicate Inv(v: Client) {
    WireOk(v.wire) && (v.token.Some? ==> v.token == Granted(v.wire))
  }

  lemma HistoryGrows(owned: bool, sends: seq<Send>, send: Send)
    requires HistoryOk(owned, sends)
    requires AttemptOk(owned, sends + [send], |sends|) && HeaderOk(sends + [send], |sends|)
    ensures HistoryOk(owned, sends + [send])
  {
    var more := sends + [send];
    forall i | 0 <= i < |more| ensures AttemptOk(owned, more, i) && HeaderOk(more, i) {
      if i < |sends| {
        assert AttemptOk(owned, sends, i) && HeaderOk(sends, i);
        Stable(sends, more, i);
      }
    }
  }

  lemma AttemptKeepsPools(w: World, v: Wire, kind: Kind, header: Option<string>, attempt: nat)
    requires PoolsOk(v)
    ensures PoolsOk(Attempt(w, v, kind, header, attempt))
  {
    Stable(v.sends, Attempt(w, v, kind, header, attempt).sends, |v.sends|);
  }

  /** A first attempt with the header that belongs to it. */
  lemma FirstAttempt(w: World, v: Wire, kind: Kind, header: Option<string>)
    requires WireOk(v)
    requires if kind.Login? then header == None else Granted(v).Some? && header == Header(Granted(v))
    ensures WireOk(Attempt(w, v, kind, header, 0))
    ensures Granted(Attempt(w, v, kind, header, 0)) ==
            if !kind.Fetch? && Grants(w.answer(|v.sends|)) then w.answer(|v.sends|).auth.token else Granted(v)
  {
    var n, first := |v.sends|, Attempt(w, v, kind, header, 0);
    Stable(v.sends, first.sends, n);
    AttemptKeepsPools(w, v, kind, header, 0);
    HistoryGrows(v.owned, v.sends, first.sends[n]);
  }

  lemma SecondAttempt(w: World, v: Wire, kind: Kind, header: Option<string>)
    requires WireOk(v) && v.owned && v.sends != [] && v.client > 0
    requires var last := v.sends[|v.sends| - 1];
             last == Send(v.client - 1, kind, header, 0, last.outcome) && last.outcome.PreSend?
    ensures WireOk(Attempt(w, v, kind, header, 1))
    ensures Granted(Attempt(w, v, kind, header, 1)) ==
            if !kind.Fetch? && Grants(w.answer(|v.sends|)) then w.answer(|v.sends|).auth.token else Granted(v)
  {
    var n, second := |v.sends|, Attempt(w, v, kind, header, 1);
    Stable(v.sends, second.sends, n);
    Stable(v.sends, second.sends, n - 1);
    AttemptKeepsPools(w, v, kind, header, 1);
    assert HeaderOk(v.sends, n - 1);
    HistoryGrows(v.owned, v.sends, second.sends[n]);
  }

  lemma RequestKeepsWire(w: World, v: Wire, kind: Kind, header: Option<string>)
    requires WireOk(v)
    requires if kind.Login? then header == None else Granted(v).Some? && header == Header(Granted(v))
    ensures var v' := Request(w, v, kind, header);
            WireOk(v') && Granted(v') ==
                          if !kind.Fetch? && Grants(Last(v')) then Last(v').auth.token else Granted(v)
  {
    FirstAttempt(w, v, kind, header);
    if v.owned && w.answer(|v.sends|).PreSend? {
      SecondAttempt(w, Attempt(w, v, kind, header, 0), kind, header);
    }
  }

  lemma AuthenticateKeepsInv(w: World, v: Client, kind: Kind, header: Option<string>)
    requires Inv(v) && !kind.Fetch? && header == if kind.Login? then None else Header(v.token)
    requires kind.Renew? ==> v.token.Some?
    ensures var (v', raised) := Authenticate(w, v, kind, header);
            && Inv(v') && v'.wire == Request(w, v.wire, kind, header)
            && (if raised.None? then v'.token.Some? else v'.token == v.token)
            && (raised.None? <==> Grants(Last(v'.wire)))
  {
    RequestKeepsWire(w, v.wire, kind, header);
  }

  lemma LogInKeepsInv(w: World, v: Client)
    requires Inv(v)
    ensures var (v', raised) := LogIn(w, v);
            && Inv(v') && (raised.None? ==> v'.token.Some?)
            && (raised.None? <==> |v'.wire.sends| > |v.wire.sends| && Grants(Last(v'.wire)))
  {
    if v.roleId != "" && v.secretId != "" { AuthenticateKeepsInv(w, v, Login, None); }
  }

  /** `_ensure_token` returns exactly when the token was still good or Vault's last answer grants one. */
  lemma EnsureTokenKeepsInv(w: World, v: Client)
    requires Inv(v)
    ensures var (v', raised) := EnsureToken(w, v);
            && Inv(v') && (raised.None? ==> v'.token.Some?)
            && (raised.None? <==> Cached(w, v) || (|v'.wire.sends| > |v.wire.sends| && Grants(Last(v'.wire))))
  {
    if !Cached(w, v) {
      if Truthy(v.token) && v.renewable {
        var (v', raised) := Authenticate(w, Checked(v), Renew, Header(v.token));
        AuthenticateKeepsInv(w, Checked(v), Renew, Header(v.token));
        LogInKeepsInv(w, v'.(token := None));
      } else {
        LogInKeepsInv(w, Checked(v));
      }
    }
  }

  /** A returned project was fetched with the token in force, which Vault granted last. */
  predicate FetchedWithToken(v: Client, answer: Answer) {
    answer.Returned? ==>
      && v.token.Some? && v.token == Granted(v.wire)
      && v.wire.sends != [] && v.wire.sends[|v.wire.sends| - 1].header == if v.token.value == "" then None else v.token
  }

  lemma ProjectKeepsInv(w: World, v: Client, repository: string)
    requires Inv(v)
    ensures var (v', answer) := Project(w, v, repository); Inv(v') && FetchedWithToken(v', answer)
  {
    var (v1, raised) := EnsureToken(w, v);
    EnsureTokenKeepsInv(w, v);
    if raised.None? && '/' in repository {
      LookKeepsInv(w, v1, repository);
      LookAgainKeepsInv(w, Look(w, v1, repository).(token := None, expiresAt := 0.0), repository);
    }
  }

  lemma LookAgainKeepsInv(w: World, v: Client, repository: string)
    requires Inv(v)
    ensures var (v', answer) := LookAgain(w, v, repository); Inv(v') && FetchedWithToken(v', answer)
  {
    var (v1, raised) := EnsureToken(w, v);
    EnsureTokenKeepsInv(w, v);
    if raised.None? { LookKeepsInv(w, v1, repository); }
  }

  lemma LookKeepsInv(w: World, v: Client, repository: string)
    requires Inv(v) && v.token.Some?
    ensures var v' := Look(w, v, repository);
            && Inv(v') && v'.token == v.token == Granted(v'.wire)
            && v'.wire.sends[|v'.wire.sends| - 1].header == Header(v.token)
  {
    RequestKeepsWire(w, v.wire, Fetch(repository), Header(v.token));
  }

  // ---------------------------------------------------------------- bounds

  datatype Tag = Renewals | Logins | Fetches

  function TagOf(kind: Kind): Tag {
    match kind case Renew => Renewals case Login => Logins case Fetch(_) => Fetches
  }

  /** The requests of one kind among the first `n` transmissions, each counted at its first attempt. */
  function Issued(sends: seq<Send>, n: nat, tag: Tag): nat
    requires n <= |sends|
  {
    if n == 0 then 0
    else Issued(sends, n - 1, tag) + if sends[n - 1].attempt == 0 && TagOf(sends[n - 1].kind) == tag then 1 else 0
  }

  function Total(v: Wire, tag: Tag): nat {
    Issued(v.sends, |v.sends|, tag)
  }

  lemma {:induction false} IssuedStable(a: seq<Send>, b: seq<Send>, n: nat, tag: Tag)
    requires n <= |a| && a <= b
    ensures Issued(a, n, tag) == Issued(b, n, tag)
  {
    if n > 0 { IssuedStable(a, b, n - 1, tag); }
  }

  /** A transport failure is followed by its own retry, and an unexpected exception by nothing. */
  predicate Pursued(sends: seq<Send>, i: nat)
    requires i + 1 < |sends|
  {
    (TransportFailure(sends[i].outcome) ==> sends[i].outcome.PreSend? && sends[i + 1].attempt == 1)
    && !sends[i].outcome.OtherFailure?
  }

  predicate Pursues(v: Wire, v': Wire) {
    v.sends <= v'.sends && v'.owned == v.owned
    && forall i | |v.sends| <= i < |v'.sends| - 1 :: Pursued(v'.sends, i)
  }

  predicate Stopped(v: Wire, v': Wire) {
    |v'.sends| > |v.sends| && (TransportFailure(Last(v')) || Last(v').OtherFailure?)
  }

  /** A piece of a call with at most `requests` requests. */
  predicate Leg(v: Wire, v': Wire, requests: nat) {
    Pursues(v, v') && |v'.sends| <= |v.sends| + 2 * requests
  }

  lemma RequestPursues(w: World, v: Wire, kind: Kind, header: Option<string>)
    ensures Pursues(v, Request(w, v, kind, header))
  {
    var first := Attempt(w, v, kind, header, 0);
    assert first.sends[|v.sends|].outcome == w.answer(|v.sends|);
  }

  lemma AttemptIssues(w: World, v: Wire, kind: Kind, header: Option<string>, attempt: nat, tag: Tag)
    ensures Total(Attempt(w, v, kind, header, attempt), tag) ==
            Total(v, tag) + if attempt == 0 && TagOf(kind) == tag then 1 else 0
  {
    IssuedStable(v.sends, Attempt(w, v, kind, header, attempt).sends, |v.sends|, tag);
  }

  lemma RequestIssues(w: World, v: Wire, kind: Kind, header: Option<string>, tag: Tag)
    ensures Total(Request(w, v, kind, header), tag) == Total(v, tag) + if TagOf(kind) == tag then 1 else 0
  {
    AttemptIssues(w, v, kind, header, 0, tag);
    AttemptIssues(w, Attempt(w, v, kind, header, 0), kind, header, 1, tag);
  }

  lemma RequestLeg(w: World, v: Wire, kind: Kind, header: Option<string>)
    ensures var v' := Request(w, v, kind, header); Leg(v, v', 1) && v'.sends[|v'.sends| - 1].kind == kind
  {
    RequestPursues(w, v, kind, header);
  }

  /** One piece of a call after another. */
  lemma Legs(a: Wire, b: Wire, c: Wire, m: nat, n: nat)
    requires Leg(a, b, m) && Leg(b, c, n) && !Stopped(a, b)
    ensures Leg(a, c, m + n)
  {
    forall i | |a.sends| <= i < |c.sends| - 1 ensures Pursued(c.sends, i) {
      if i < |b.sends| - 1 {
        assert Pursued(b.sends, i) && b.sends[i] == c.sends[i] && b.sends[i + 1] == c.sends[i + 1];
      } else if i == |b.sends| - 1 {
        assert c.sends[i] == b.sends[i];
      }
    }
  }

  /** How a piece of a call that ends in a transport failure ends the call. */
  predicate Reports(v: Wire, v': Wire, raised: Option<Exception>) {
    && (raised.None? ==> !Stopped(v, v'))
    && (raised.Some? && |v'.sends| == |v.sends| ==> raised == Some(Reported(MissingCredentials)))
    && (raised.Some? ==> raised.value.Other? || (raised.value.Reported? && !raised.value.error.NotConfigured?))
    && (Stopped(v, v') && TransportFailure(Last(v')) ==> raised == Some(Reported(Authentication(Named(Last(v').reason)))))
    && (|v'.sends| > |v.sends| && v'.sends[|v'.sends| - 1].kind.Login? && Denied(Last(v')) ==>
          raised == Some(Reported(Authentication(HttpStatus(Last(v').status)))))
  }

  predicate Denied(o: Outcome) {
    o.Response? && !(200 <= o.status <= 299)
  }

  /** What a renewal or login raises, given the outcome of its last transmission. */
  predicate Matches(last: Outcome, raised: Option<Exception>) {
    && (raised.None? || raised.value.Http? || raised.value.Value? ==> !TransportFailure(last) && !last.OtherFailure?)
    && (TransportFailure(last) ==> raised == Some(Transport(Named(last.reason))))
    && (raised.Some? && raised.value.Transport? ==> TransportFailure(last))
    && (raised.Some? && raised.value.Reported? ==> raised.value.error == InvalidAuthentication)
    && (Denied(last) ==> raised == Some(Http(HttpStatus(last.status))))
  }

  lemma AuthenticateOutcome(w: World, v: Client, kind: Kind, header: Option<string>)
    ensures var (v', raised) := Authenticate(w, v, kind, header);
            v'.wire == Request(w, v.wire, kind, header) && Matches(Last(v'.wire), raised)
  {
  }

  lemma LogInLeg(w: World, v: Client)
    ensures var (v', raised) := LogIn(w, v);
            && Leg(v.wire, v'.wire, 1) && Reports(v.wire, v'.wire, raised)
            && (|v'.wire.sends| > |v.wire.sends| ==> v'.wire.sends[|v'.wire.sends| - 1].kind.Login?)
  {
    if v.roleId != "" && v.secretId != "" {
      AuthenticateOutcome(w, v, Login, None);
      RequestLeg(w, v.wire, Login, None);
    }
  }

  /** What one call of `_ensure_token` adds to the history. */
  predicate TokenLeg(v: Wire, v': Wire, requests: nat, raised: Option<Exception>) {
    && Leg(v, v', requests) && Reports(v, v', raised)
    && (|v'.sends| > |v.sends| ==> !v'.sends[|v'.sends| - 1].kind.Fetch?)
  }

  lemma AfterRenewalLeg(w: World, base: Wire, v: Client, raised: Option<Exception>)
    requires Leg(base, v.wire, 1) && |v.wire.sends| > |base.sends| && v.wire.sends[|v.wire.sends| - 1].kind.Renew?
    requires Matches(Last(v.wire), raised)
    ensures var (v', raised') := AfterRenewal(w, v, raised);
            TokenLeg(base, v'.wire, 2, raised')
  {
    if raised.Some? && (raised.value.Http? || raised.value.Value?) {
      var dropped := v.(token := None);
      LogInLeg(w, dropped);
      Legs(base, v.wire, LogIn(w, dropped).0.wire, 1, 1);
    }
  }

  lemma RenewLeg(w: World, v: Client)
    ensures var (v1, raised1) := Authenticate(w, v, Renew, Header(v.token));
            var (v', raised) := AfterRenewal(w, v1, raised1);
            TokenLeg(v.wire, v'.wire, 2, raised)
  {
    var (v1, raised) := Authenticate(w, v, Renew, Header(v.token));
    AuthenticateOutcome(w, v, Renew, Header(v.token));
    RequestLeg(w, v.wire, Renew, Header(v.token));
    assert Leg(v.wire, v1.wire, 1) && |v1.wire.sends| > |v.wire.sends|;
    AfterRenewalLeg(w, v.wire, v1, raised);
  }

  /** After a transport failure of a renewal `_ensure_token` does not log in but reports the failure. */
  lemma EnsureTokenLeg(w: World, v: Client)
    ensures var (v', raised) := EnsureToken(w, v);
            TokenLeg(v.wire, v'.wire, if Truthy(v.token) then 2 else 1, raised)
  {
    if !Cached(w, v) {
      if Truthy(v.token) && v.renewable { RenewLeg(w, Checked(v)); } else { LogInLeg(w, Checked(v)); }
    }
  }

  /** How a call of `project` ends, read off its last transmission: it returns a configuration
      exactly if that was a lookup of the repository which Vault answered with a valid one. */
  predicate Verdict(last: Send, repository: string, answer: Answer) {
    && (answer.Returned? <==>
          last.kind == Fetch(repository) && Success(last.outcome)
          && last.outcome.data.Data? && ValidConfig(last.outcome.data.config))
    && (answer.Returned? ==> last.outcome.data == Data(answer.config, answer.version))
    && (answer == Raised(Reported(NotConfigured)) <==>
          last.kind == Fetch(repository) && last.outcome.Response? && last.outcome.status == 404)
    && (last.kind == Fetch(repository) && last.outcome.Response? ==>
          if 200 <= last.outcome.status <= 299 then
            (last.outcome.data.Data? && ValidConfig(last.outcome.data.config)) || answer == Raised(Reported(InvalidProject))
          else
            last.outcome.status == 404 || answer == Raised(Reported(Lookup(HttpStatus(last.outcome.status))))
            || (Refused(last.outcome) && answer == Raised(Reported(MissingCredentials))))
    && (last.kind.Fetch? && last.outcome.RequestFailure? ==> answer == Raised(Reported(Lookup(Named(last.outcome.reason)))))
    && (last.kind.Fetch? && last.outcome.ValueFailure? ==> answer == Raised(Reported(InvalidProject)))
    && (last.kind.Fetch? && last.outcome.OtherFailure? ==> answer == Raised(Other(last.outcome.reason)))
    && (last.kind.Login? && Denied(last.outcome) ==>
          answer == Raised(Reported(Authentication(HttpStatus(last.outcome.status)))))
    && (TransportFailure(last.outcome) ==>
          answer == Raised(Reported(if last.kind.Fetch? then Lookup(Named(last.outcome.reason)) else Authentication(Named(last.outcome.reason)))))
  }

  predicate Concludes(v: Wire, v': Wire, repository: string, answer: Answer) {
    if |v'.sends| > |v.sends| then Verdict(v'.sends[|v'.sends| - 1], repository, answer)
    else answer == Raised(Reported(MissingCredentials)) || answer == Raised(Value(Named("ValueError")))
  }

  lemma LookLeg(w: World, v: Client, repository: string)
    ensures var v' := Look(w, v, repository);
            && Leg(v.wire, v'.wire, 1) && Concludes(v.wire, v'.wire, repository, Interpret(Last(v'.wire)))
            && |v'.wire.sends| > |v.wire.sends| && v'.wire.sends[|v'.wire.sends| - 1].kind == Fetch(repository)
  {
    RequestLeg(w, v.wire, Fetch(repository), Header(v.token));
  }

  /** An exception of `_ensure_token` ends the call, within the `try` block or before it. */
  lemma RaisedConcludes(v: Wire, v': Wire, repository: string, e: Exception)
    requires |v'.sends| >= |v.sends| && Reports(v, v', Some(e))
    requires |v'.sends| > |v.sends| ==> !v'.sends[|v'.sends| - 1].kind.Fetch?
    ensures Concludes(v, v', repository, Raised(e)) && Translate(e) == e
    ensures |v'.sends| == |v.sends| ==> e == Reported(MissingCredentials)
  {
  }

  lemma LookAgainLeg(w: World, v: Client, repository: string)
    requires v.token.None?
    ensures var (v', answer) := LookAgain(w, v, repository);
            && Leg(v.wire, v'.wire, 2) && Concludes(v.wire, v'.wire, repository, answer)
            && (|v'.wire.sends| == |v.wire.sends| ==> answer == Raised(Reported(MissingCredentials)))
  {
    var (v1, raised) := EnsureToken(w, v);
    EnsureTokenLeg(w, v);
    if raised.None? {
      LookLeg(w, v1, repository);
      Legs(v.wire, v1.wire, Look(w, v1, repository).wire, 1, 1);
    } else {
      RaisedConcludes(v.wire, v1.wire, repository, raised.value);
    }
  }

  lemma ProjectLeg(w: World, v: Client, repository: string)
    ensures Leg(v.wire, Project(w, v, repository).0.wire, 5)
  {
    var (v1, raised) := EnsureToken(w, v);
    EnsureTokenLeg(w, v);
    if raised.None? && '/' in repository {
      LookLeg(w, v1, repository);
      var v2 := Look(w, v1, repository);
      Legs(v.wire, v1.wire, v2.wire, 2, 1);
      if Refused(Last(v2.wire)) {
        var dropped := v2.(token := None, expiresAt := 0.0);
        LookAgainLeg(w, dropped, repository);
        Legs(v.wire, v2.wire, LookAgain(w, dropped, repository).0.wire, 3, 2);
      }
    }
  }

  lemma UnsplittableConcludes(v: Wire, v': Wire, repository: string)
    requires |v'.sends| >= |v.sends| && Reports(v, v', None)
    requires |v'.sends| > |v.sends| ==> !v'.sends[|v'.sends| - 1].kind.Fetch?
    ensures Concludes(v, v', repository, Raised(Value(Named("ValueError"))))
  {
  }

  /** The second half of a call after a refused lookup. */
  lemma RefusedConcludes(v: Wire, b: Wire, v': Wire, repository: string, answer: Answer)
    requires |v.sends| < |b.sends| && b.sends <= v'.sends
    requires b.sends[|b.sends| - 1].kind == Fetch(repository) && Refused(Last(b))
    requires Concludes(b, v', repository, answer)
    requires |v'.sends| == |b.sends| ==> answer == Raised(Reported(MissingCredentials))
    ensures Concludes(v, v', repository, answer)
  {
    if |v'.sends| == |b.sends| { assert v'.sends == b.sends; }
  }

  lemma ProjectConcludes(w: World, v: Client, repository: string)
    ensures var (v', answer) := Project(w, v, repository); Concludes(v.wire, v'.wire, repository, answer)
  {
    var (v1, raised) := EnsureToken(w, v);
    EnsureTokenLeg(w, v);
    WithTokenConcludes(w, v.wire, v1, raised, repository);
  }

  lemma WithTokenConcludes(w: World, base: Wire, v: Client, raised: Option<Exception>, repository: string)
    requires TokenLeg(base, v.wire, 2, raised)
    ensures var (v', answer) := WithToken(w, v, raised, repository); Concludes(base, v'.wire, repository, answer)
  {
    if raised.Some? {
      RaisedConcludes(base, v.wire, repository, raised.value);
    } else if '/' !in repository {
      UnsplittableConcludes(base, v.wire, repository);
    } else {
      LookUpConcludes(w, base, v, repository);
    }
  }

  lemma LookUpConcludes(w: World, base: Wire, v: Client, repository: string)
    requires |base.sends| <= |v.wire.sends|
    ensures var (v', answer) := LookUp(w, v, repository); Concludes(base, v'.wire, repository, answer)
  {
    LookLeg(w, v, repository);
    var v2 := Look(w, v, repository);
    if Refused(Last(v2.wire)) {
      var dropped := v2.(token := None, expiresAt := 0.0);
      LookAgainLeg(w, dropped, repository);
      var (v', answer) := LookAgain(w, dropped, repository);
      RefusedConcludes(base, v2.wire, v'.wire, repository, answer);
    }
  }

  // ---------------------------------------------------------------- counts

  lemma LogInIssues(w: World, v: Client, tag: Tag)
    ensures Total(LogIn(w, v).0.wire, tag) <= Total(v.wire, tag) + if tag == Logins then 1 else 0
  {
    if v.roleId != "" && v.secretId != "" {
      AuthenticateOutcome(w, v, Login, None);
      RequestIssues(w, v.wire, Login, None, tag);
    }
  }

  lemma EnsureTokenIssues(w: World, v: Client, tag: Tag)
    ensures Total(EnsureToken(w, v).0.wire, tag) <= Total(v.wire, tag) +
            match tag case Renewals => (if Truthy(v.token) then 1 else 0) case Logins => 1 case Fetches => 0
  {
    if !Cached(w, v) {
      if Truthy(v.token) && v.renewable {
        AuthenticateOutcome(w, Checked(v), Renew, Header(v.token));
        RequestIssues(w, v.wire, Renew, Header(v.token), tag);
        LogInIssues(w, Authenticate(w, Checked(v), Renew, Header(v.token)).0.(token := None), tag);
      } else {
        LogInIssues(w, Checked(v), tag);
      }
    }
  }

  lemma LookAgainIssues(w: World, v: Client, repository: string, tag: Tag)
    requires v.token.None?
    ensures Total(LookAgain(w, v, repository).0.wire, tag) <= Total(v.wire, tag) + if tag == Renewals then 0 else 1
  {
    EnsureTokenIssues(w, v, tag);
    var v1 := EnsureToken(w, v).0;
    RequestIssues(w, v1.wire, Fetch(repository), Header(v1.token), tag);
  }

  lemma LookUpIssues(w: World, v: Client, repository: string, tag: Tag)
    ensures Total(LookUp(w, v, repository).0.wire, tag) <= Total(v.wire, tag) +
            match tag case Renewals => 0 case Logins => 1 case Fetches => 2
  {
    RequestIssues(w, v.wire, Fetch(repository), Header(v.token), tag);
    LookAgainIssues(w, Look(w, v, repository).(token := None, expiresAt := 0.0), repository, tag);
  }

  lemma ProjectIssues(w: World, v: Client, repository: string, tag: Tag)
    ensures Total(Project(w, v, repository).0.wire, tag) <= Total(v.wire, tag) + if tag == Renewals then 1 else 2
  {
    EnsureTokenIssues(w, v, tag);
    LookUpIssues(w, EnsureToken(w, v).0, repository, tag);
  }

  /** Whatever the network does, a lookup issues at most one renewal, two logins and two fetches, in
      at most ten transmissions; nothing follows a transport failure but its own retry. */
  lemma ProjectBounds(w: World, v: Client, repository: string)
    ensures var before, after := v.wire, Project(w, v, repository).0.wire;
            && before.sends <= after.sends && |after.sends| <= |before.sends| + 10
            && Total(after, Renewals) <= Total(before, Renewals) + 1
            && Total(after, Logins) <= Total(before, Logins) + 2
            && Total(after, Fetches) <= Total(before, Fetches) + 2
            && (forall i | |before.sends| <= i < |after.sends| - 1 :: Pursued(after.sends, i))
  {
    ProjectLeg(w, v, repository);
    ProjectIssues(w, v, repository, Renewals);
    ProjectIssues(w, v, repository, Logins);
    ProjectIssues(w, v, repository, Fetches);
  }

  // ---------------------------------------------------------------- runs

  function Initial(owned: bool, roleId: string, secretId: string): Client {
    Client(roleId, secretId, None, 0.0, false, Wire(owned, 0, if owned then 1 else 0, [], []), 0)
  }

  /** One lookup after another. */
  function Lookups(w: World, v: Client, repositories: seq<string>): Client
    decreases |repositories|
  {
    if repositories == [] then v else Lookups(w, Project(w, v, repositories[0]).0, repositories[1..])
  }

  /** `aclose`. */
  function Closed(v: Wire): Wire {
    if v.owned then v.(closed := v.closed + [v.client]) else v
  }

  lemma {:induction false} LookupsKeepInv(w: World, v: Client, repositories: seq<string>)
    requires Inv(v)
    ensures Inv(Lookups(w, v, repositories)) && Lookups(w, v, repositories).wire.owned == v.wire.owned
    decreases |repositories|
  {
    if repositories != [] {
      ProjectKeepsInv(w, v, repositories[0]);
      ProjectOwns(w, v, repositories[0]);
      LookupsKeepInv(w, Project(w, v, repositories[0]).0, repositories[1..]);
    }
  }

  lemma ProjectOwns(w: World, v: Client, repository: string)
    ensures Project(w, v, repository).0.wire.owned == v.wire.owned
  {
    ProjectLeg(w, v, repository);
  }

  /** Over any run of lookups of a fresh client, on any network: pools made equal one plus the
      transport failures, every retry follows a pre-send failure, every token sent is the one Vault
      granted last, and after `aclose` each pool has been closed exactly once. */
  lemma EveryRun(w: World, owned: bool, roleId: string, secretId: string, repositories: seq<string>)
    ensures var v := Lookups(w, Initial(owned, roleId, secretId), repositories).wire;
            && WireOk(v) && v.owned == owned
            && (owned ==> var closed := Closed(v).closed;
                          |closed| == v.created && forall i | 0 <= i < |closed| :: closed[i] == i)
            && (!owned ==> Closed(v).closed == [] && forall i | 0 <= i < |v.sends| :: v.sends[i].attempt == 0)
  {
    LookupsKeepInv(w, Initial(owned, roleId, secretId), repositories);
    var v := Lookups(w, Initial(owned, roleId, secretId), repositories).wire;
    forall i | 0 <= i < |v.sends| ensures !owned ==> v.sends[i].attempt == 0 {
      assert AttemptOk(v.owned, v.sends, i);
    }
  }

  // ---------------------------------------------------------------- the bound is attained

  const GRANT := Response(200, AuthFields(Some("t"), Some(0), true), BadData)

  /** Every request needs its retry, the renewal is denied, and the first lookup is refused. */
  function WorstAnswer(n: nat): Outcome {
    if n % 2 == 1 then PreSend("ConnectError")
    else if n == 2 then Response(500, NoAuth, BadData)
    else if n == 6 then Response(403, NoAuth, BadData)
    else GRANT
  }

  /** A client after one login, with an expired, renewable token. */
  predicate Worst(v: Client) {
    && v.wire.owned && |v.wire.sends| == 1 && v.roleId != "" && v.secretId != ""
    && Truthy(v.token) && v.renewable && v.expiresAt <= 0.0
  }

  function WorstWorld(): World {
    World(WorstAnswer, (_: nat) => 0.0)
  }

  lemma Twice(v: Wire, kind: Kind, header: Option<string>)
    requires v.owned && |v.sends| % 2 == 1
    ensures var v' := Request(WorstWorld(), v, kind, header);
            v'.owned && |v'.sends| == |v.sends| + 2 && Last(v') == WorstAnswer(|v.sends| + 1)
  {
  }

  lemma WorstLogIn(v: Client)
    requires v.roleId != "" && v.secretId != "" && v.wire.owned && |v.wire.sends| in {3, 7}
    ensures var (v', raised) := LogIn(WorstWorld(), v);
            raised.None? && v'.wire.owned && |v'.wire.sends| == |v.wire.sends| + 2
            && v'.roleId == v.roleId && v'.secretId == v.secretId
  {
    Twice(v.wire, Login, None);
  }

  lemma WorstStart(v: Client)
    requires Worst(v)
    ensures var (v', raised) := EnsureToken(WorstWorld(), v);
            raised.None? && v'.wire.owned && |v'.wire.sends| == 5 && v'.roleId == v.roleId && v'.secretId == v.secretId
  {
    var w := WorstWorld();
    Twice(v.wire, Renew, Header(v.token));
    WorstLogIn(Authenticate(w, Checked(v), Renew, Header(v.token)).0.(token := None));
  }

  lemma WorstLookUp(v: Client, repository: string)
    requires v.roleId != "" && v.secretId != "" && v.wire.owned && |v.wire.sends| == 5
    ensures |LookUp(WorstWorld(), v, repository).0.wire.sends| == 11
  {
    var w := WorstWorld();
    Twice(v.wire, Fetch(repository), Header(v.token));
    var refused := Look(w, v, repository).(token := None, expiresAt := 0.0);
    WorstLogIn(refused);
    var again := LogIn(w, refused).0;
    assert EnsureToken(w, refused) == (again, None);
    Twice(again.wire, Fetch(repository), Header(again.token));
  }

  /** All ten transmissions can be needed. */
  lemma TenTransmissions(v: Client, repository: string)
    requires Worst(v) && '/' in repository
    ensures |Project(WorstWorld(), v, repository).0.wire.sends| == |v.wire.sends| + 10
  {
    WorstStart(v);
    WorstLookUp(EnsureToken(WorstWorld(), v).0, repository);
  }
}
