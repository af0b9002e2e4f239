/** The deploy and destroy handlers (src/demo_controller/api.py): authentication, the guards in
    their order, then one store transaction. The run theorem at the end follows the nonce table
    and the delivery columns through every interleaving with reconciler writes. */
module Api {
  import opened Text
  import opened Models
  import opened Store
  import opened Auth

  /** `json` reads a body as a JSON object, if it is one; the parsers are the program's. */
  datatype ApiConfig = ApiConfig(
    auth: AuthConfig,
    registry: string,
    json: string -> Option<map<string, JsonValue>>,
    parseDeploy: string -> Option<DeployRequest>,
    parseDestroy: string -> Option<DestroyRequest>)

  /** The parsers accept what the models accept. */
  ghost predicate Parses(c: ApiConfig) {
    && (forall body :: c.parseDeploy(body) == DeployModel(c.json(body)))
    && (forall body :: c.parseDestroy(body) == DestroyModel(c.json(body)))
  }

  datatype Reply =
    | Unauthenticated(outcome: Outcome)
    | Unprocessable | WrongRepository | WrongRegistry | NonceMismatch | DeliveryReused
    | Accepted(row: DemoRecord)

  datatype Guarded<T> = Fine(value: T) | Err(error: Reply)

  /** The guards of `deploy`, after authentication and before the store. */
  function DeployGuard(c: ApiConfig, repository: string, r: Request): Guarded<DeployRequest> {
    match c.parseDeploy(r.body)
    case None => Err(Unprocessable)
    case Some(payload) =>
      if payload.repository != repository then Err(WrongRepository)
      else if !HasImagePrefix(c.registry, payload.repository, payload.image) then Err(WrongRegistry)
      else if r.nonce != payload.deliveryId then Err(NonceMismatch)
      else Fine(payload)
  }

  function DestroyGuard(c: ApiConfig, repository: string, r: Request): Guarded<DestroyRequest> {
    match c.parseDestroy(r.body)
    case None => Err(Unprocessable)
    case Some(payload) =>
      if payload.repository != repository then Err(WrongRepository)
      else if r.nonce != payload.deliveryId then Err(NonceMismatch)
      else Fine(payload)
  }

  /** A deploy that reaches the store names an immutable digest of its own repository. */
  lemma AdmittedDeployIsAuthorised(c: ApiConfig, repository: string, r: Request)
    requires Parses(c) && DeployGuard(c, repository, r).Fine?
    ensures var payload := DeployGuard(c, repository, r).value;
            && payload.repository == repository && payload.deliveryId == r.nonce
            && Matches(RegistryRegex(), c.registry)
            && AuthorisedImage(c.registry, repository, payload.image)
  {
    var payload := DeployGuard(c, repository, r).value;
    assert c.parseDeploy(r.body) == DeployModel(c.json(r.body));
    ModelsValidate(c.json(r.body));
    AcceptedImageIff(c.registry, repository, payload.image);
  }

  class Handlers {
    const config: ApiConfig
    const store: DemoStore
    const authenticator: Authenticator

    constructor (config: ApiConfig, authenticator: Authenticator)
      requires authenticator.config == config.auth
      ensures this.config == config && this.authenticator == authenticator && store == authenticator.store
    {
      this.config, this.authenticator, this.store := config, authenticator, authenticator.store;
    }

    ghost predicate Valid() {
      authenticator.config == config.auth && authenticator.store == store
    }

    ghost function View(): (AuthState, Demos)
      reads authenticator, store
    {
      (AuthState(authenticator.requests, store.nonces), store.demos)
    }

    method Deploy(r: Request, now: int, storeNow: int) returns (reply: Reply)
      requires Valid()
      modifies authenticator`requests, store
      ensures (View(), reply) == DeployStep(config, old(View()), r, now, storeNow)
    {
      var outcome := authenticator.AuthenticateRequest(r, now);
      if !outcome.Authenticated? {
        return Unauthenticated(outcome);
      }
      var parsed := config.parseDeploy(r.body);
      if parsed.None? {
        return Unprocessable;
      }
      var payload := parsed.value;
      if payload.repository != outcome.repository {
        return WrongRepository;
      }
      if !HasImagePrefix(config.registry, payload.repository, payload.image) {
        return WrongRegistry;
      }
      if r.nonce != payload.deliveryId {
        return NonceMismatch;
      }
      var result := store.Deploy(payload, config.auth.sha256(r.body), storeNow);
      if result.ReusedDelivery? {
        return DeliveryReused;
      }
      return Accepted(result.value.0);
    }

    method Destroy(r: Request, now: int, storeNow: int) returns (reply: Reply)
      requires Valid()
      modifies authenticator`requests, store
      ensures (View(), reply) == DestroyStep(config, old(View()), r, now, storeNow)
    {
      var outcome := authenticator.AuthenticateRequest(r, now);
      if !outcome.Authenticated? {
        return Unauthenticated(outcome);
      }
      var parsed := config.parseDestroy(r.body);
      if parsed.None? {
        return Unprocessable;
      }
      var payload := parsed.value;
      if payload.repository != outcome.repository {
        return WrongRepository;
      }
      if r.nonce != payload.deliveryId {
        return NonceMismatch;
      }
      var result := store.Destroy(payload.repository, payload.pr, payload.deliveryId, config.auth.sha256(r.body), storeNow);
      if result.ReusedDelivery? {
        return DeliveryReused;
      }
      return Accepted(result.value);
    }
  }

  function DeployStep(c: ApiConfig, s: (AuthState, Demos), r: Request, now: int, storeNow: int): ((AuthState, Demos), Reply) {
    var (auth, outcome) := Authenticate(c.auth, s.0, r, now);
    if !outcome.Authenticated? then ((auth, s.1), Unauthenticated(outcome))
    else
      match DeployGuard(c, outcome.repository, r)
      case Err(reply) => ((auth, s.1), reply)
      case Fine(payload) =>
        var hash := c.auth.sha256(r.body);
        var demos := UpsertDeploy(s.1, payload, hash, storeNow);
        if Judge(s.1, DeployKey(payload), payload.deliveryId, hash).Conflict? then ((auth, demos), DeliveryReused)
        else ((auth, demos), Accepted(demos[DeployKey(payload)]))
  }

  function DestroyStep(c: ApiConfig, s: (AuthState, Demos), r: Request, now: int, storeNow: int): ((AuthState, Demos), Reply) {
    var (auth, outcome) := Authenticate(c.auth, s.0, r, now);
    if !outcome.Authenticated? then ((auth, s.1), Unauthenticated(outcome))
    else
      match DestroyGuard(c, outcome.repository, r)
      case Err(reply) => ((auth, s.1), reply)
      case Fine(payload) =>
        var key, hash := Key(payload.repository, payload.pr), c.auth.sha256(r.body);
        var demos := RequestDestroy(s.1, key, payload.deliveryId, hash, storeNow);
        if Judge(s.1, key, payload.deliveryId, hash).Conflict? then ((auth, demos), DeliveryReused)
        else ((auth, demos), Accepted(demos[key]))
  }

  // ---------------------------------------------------------------- runs

  /** An authenticated request and the time it was authenticated. */
  datatype Entry = Entry(request: Request, at: int)

  /** A check of the rate limit for a repository, or a restart of the process. */
  datatype RateMark = Checked(repository: string, at: int) | Restarted

  /** `entries` and `checks` are history, not state. */
  datatype State = State(auth: AuthState, demos: Demos, entries: seq<Entry>, checks: seq<RateMark>, now: int)

  datatype Event =
    | Deploying(r: Request, at: int, storeAt: int)
    | Destroying(r: Request, at: int, storeAt: int)
    | AskingStatus(r: Request, at: int)
    | Writing(key: Key, row: DemoRecord)
    | Removing(key: Key)
    | Restarting

  /** HTTP keeps newlines out of the method, the target and header values. */
  predicate WellFormed(r: Request) {
    OneLine(Lower(r.repository)) && OneLine(Upper(r.verb)) && OneLine(r.path) && OneLine(r.nonce)
  }

  /** The clock does not step back; the reconciler writes no delivery column. */
  predicate Enabled(s: State, e: Event) {
    match e
    case Deploying(r, at, storeAt) => WellFormed(r) && s.now <= at <= storeAt
    case Destroying(r, at, storeAt) => WellFormed(r) && s.now <= at <= storeAt
    case AskingStatus(r, at) => WellFormed(r) && s.now <= at
    case Writing(key, row) =>
      key in s.demos && row.deliveryId == s.demos[key].deliveryId && row.requestHash == s.demos[key].requestHash
      && row.desiredPresent == s.demos[key].desiredPresent
    case Removing(key) => true
    case Restarting => true
  }

  function Log(c: ApiConfig, s: State, r: Request, at: int): seq<Entry> {
    if Authenticate(c.auth, s.auth, r, at).1.Authenticated? then s.entries + [Entry(r, at)] else s.entries
  }

  /** Authentication and the log, before the handler touches the store. */
  function Admit(c: ApiConfig, s: State, r: Request, at: int): State {
    s.(auth := Authenticate(c.auth, s.auth, r, at).0, entries := Log(c, s, r, at), checks := RateLog(c, s, r, at), now := at)
  }

  function RateLog(c: ApiConfig, s: State, r: Request, at: int): seq<RateMark> {
    if Precheck(c.auth, r, at).Authenticated? then s.checks + [Checked(Lower(r.repository), at)] else s.checks
  }

  /** The deques live in memory, the tables do not. */
  function AfterRestart(s: State): State {
    s.(auth := AuthState(map[], s.auth.nonces), checks := s.checks + [Restarted])
  }

  function Do(c: ApiConfig, s: State, e: Event): (State, Option<Reply>) {
    match e
    case Deploying(r, at, storeAt) =>
      var (after, reply) := DeployStep(c, (s.auth, s.demos), r, at, storeAt);
      (Admit(c, s, r, at).(demos := after.1, now := storeAt), Some(reply))
    case Destroying(r, at, storeAt) =>
      var (after, reply) := DestroyStep(c, (s.auth, s.demos), r, at, storeAt);
      (Admit(c, s, r, at).(demos := after.1, now := storeAt), Some(reply))
    case AskingStatus(r, at) => (Admit(c, s, r, at), None)
    case Writing(key, row) => (s.(demos := s.demos[key := row]), None)
    case Removing(key) => (s.(demos := DeleteRecord(s.demos, key)), None)
    case Restarting => (AfterRestart(s), None)
  }

  predicate ValidRun(c: ApiConfig, s: State, events: seq<Event>)
    decreases |events|
  {
    events == [] || (Enabled(s, events[0]) && ValidRun(c, Do(c, s, events[0]).0, events[1..]))
  }

  function Run(c: ApiConfig, s: State, events: seq<Event>): State
    decreases |events|
  {
    if events == [] then s else Run(c, Do(c, s, events[0]).0, events[1..])
  }

  function Initial(now: int): State {
    State(AuthState(map[], map[]), map[], [], [], now)
  }

  function NonceOf(r: Request): NonceKey {
    NonceKey(Lower(r.repository), r.nonce)
  }

  /** Every authenticated use of this nonce is within its retention. */
  predicate Young(c: ApiConfig, s: State, key: NonceKey, at: int) {
    forall i | 0 <= i < |s.entries| && NonceOf(s.entries[i].request) == key :: at <= s.entries[i].at + c.auth.retention
  }

  /** A nonce row records one of the entries. */
  ghost predicate RowsRecorded(c: ApiConfig, s: State) {
    forall key | key in s.auth.nonces ::
      exists i | 0 <= i < |s.entries| :: NonceOf(s.entries[i].request) == key && s.entries[i].at == s.auth.nonces[key].seenAt
  }

  /** While a nonce is young, its row is there and all its entries have the row's fingerprint. */
  predicate YoungProtected(c: ApiConfig, s: State) {
    forall i | 0 <= i < |s.entries| && Young(c, s, NonceOf(s.entries[i].request), s.now) ::
      var key := NonceOf(s.entries[i].request);
      key in s.auth.nonces && s.auth.nonces[key].fingerprint == Fingerprint(c.auth, s.entries[i].request)
  }

  ghost predicate WellLogged(s: State) {
    forall i | 0 <= i < |s.entries| :: WellFormed(s.entries[i].request)
  }

  /** The delivery columns of a row come from an authenticated request of its repository. */
  ghost predicate Delivered(c: ApiConfig, s: State, repository: string, deliveryId: string, hash: string) {
    exists i | 0 <= i < |s.entries| ::
      NonceOf(s.entries[i].request) == NonceKey(repository, deliveryId) && c.auth.sha256(s.entries[i].request.body) == hash
  }

  ghost predicate RowsDelivered(c: ApiConfig, s: State) {
    forall k | k in s.demos :: Delivered(c, s, k.repository, s.demos[k].deliveryId, s.demos[k].requestHash)
  }

  ghost predicate Inv(c: ApiConfig, s: State) {
    RowsRecorded(c, s) && YoungProtected(c, s) && WellLogged(s) && RowsDelivered(c, s)
  }

  lemma ProtectedLater(c: ApiConfig, s: State, at: int)
    requires YoungProtected(c, s) && s.now <= at
    ensures YoungProtected(c, s.(now := at))
  {
    forall i | 0 <= i < |s.entries| && Young(c, s, NonceOf(s.entries[i].request), at)
      ensures Young(c, s, NonceOf(s.entries[i].request), s.now)
    {
    }
    assert forall key :: Young(c, s.(now := at), key, at) <==> Young(c, s, key, at);
  }

  /** Purging never removes the row of a young nonce. */
  lemma YoungSurvivesPurge(c: ApiConfig, s: State, key: NonceKey, at: int)
    requires RowsRecorded(c, s) && key in s.auth.nonces && Young(c, s, key, at)
    ensures key in Purge(s.auth.nonces, at, c.auth.retention)
  {
    var i :| 0 <= i < |s.entries| && NonceOf(s.entries[i].request) == key && s.entries[i].at == s.auth.nonces[key].seenAt;
  }

  /** What authentication does to the nonce table and the log. */
  lemma AdmitEffect(c: ApiConfig, s: State, r: Request, at: int)
    ensures var s' := Admit(c, s, r, at);
            var kept, key, mark := Purge(s.auth.nonces, at, c.auth.retention), NonceOf(r), Fingerprint(c.auth, r);
            || (s'.auth.nonces in {s.auth.nonces, kept} && s'.entries == s.entries)
            || (key in kept && kept[key].fingerprint == mark && s'.auth.nonces == kept
                && s'.entries == s.entries + [Entry(r, at)])
            || (key !in kept && s'.auth.nonces == kept[key := NonceRow(mark, at)]
                && s'.entries == s.entries + [Entry(r, at)])
  {
  }

  lemma AdmitKeepsRecorded(c: ApiConfig, s: State, r: Request, at: int)
    requires RowsRecorded(c, s)
    ensures RowsRecorded(c, Admit(c, s, r, at))
  {
    var s' := Admit(c, s, r, at);
    AdmitEffect(c, s, r, at);
    forall key | key in s'.auth.nonces
      ensures exists i | 0 <= i < |s'.entries| :: NonceOf(s'.entries[i].request) == key && s'.entries[i].at == s'.auth.nonces[key].seenAt
    {
      if key in s.auth.nonces && s'.auth.nonces[key] == s.auth.nonces[key] {
        var i :| 0 <= i < |s.entries| && NonceOf(s.entries[i].request) == key && s.entries[i].at == s.auth.nonces[key].seenAt;
        assert s'.entries[i] == s.entries[i];
      } else {
        assert s'.entries[|s.entries|] == Entry(r, at);
      }
    }
  }

  lemma OldEntryProtected(c: ApiConfig, s: State, r: Request, at: int, i: nat)
    requires RowsRecorded(c, s) && YoungProtected(c, s) && s.now <= at && i < |s.entries|
    requires Young(c, s, NonceOf(s.entries[i].request), at)
    ensures var s', key := Admit(c, s, r, at), NonceOf(s.entries[i].request);
            key in s'.auth.nonces && s'.auth.nonces[key].fingerprint == Fingerprint(c.auth, s.entries[i].request)
  {
    var key := NonceOf(s.entries[i].request);
    assert Young(c, s, key, s.now);
    YoungSurvivesPurge(c, s, key, at);
    AdmitEffect(c, s, r, at);
  }

  lemma EntryProtected(c: ApiConfig, s: State, r: Request, at: int, i: nat)
    requires RowsRecorded(c, s) && YoungProtected(c, s) && s.now <= at
    requires i < |Admit(c, s, r, at).entries|
    requires Young(c, Admit(c, s, r, at), NonceOf(Admit(c, s, r, at).entries[i].request), at)
    ensures var s' := Admit(c, s, r, at);
            var key := NonceOf(s'.entries[i].request);
            key in s'.auth.nonces && s'.auth.nonces[key].fingerprint == Fingerprint(c.auth, s'.entries[i].request)
  {
    var s' := Admit(c, s, r, at);
    if i < |s.entries| {
      YoungBefore(s.entries, s'.entries, c, NonceOf(s'.entries[i].request), at);
      OldEntryProtected(c, s, r, at, i);
    } else {
      AdmitEffect(c, s, r, at);
    }
  }

  lemma AdmitKeepsProtected(c: ApiConfig, s: State, r: Request, at: int)
    requires RowsRecorded(c, s) && YoungProtected(c, s) && s.now <= at
    ensures YoungProtected(c, Admit(c, s, r, at))
  {
    var s' := Admit(c, s, r, at);
    forall i | 0 <= i < |s'.entries| && Young(c, s', NonceOf(s'.entries[i].request), at)
      ensures var key := NonceOf(s'.entries[i].request);
              key in s'.auth.nonces && s'.auth.nonces[key].fingerprint == Fingerprint(c.auth, s'.entries[i].request)
    {
      EntryProtected(c, s, r, at, i);
    }
  }

  lemma YoungBefore(entries: seq<Entry>, more: seq<Entry>, c: ApiConfig, key: NonceKey, at: int)
    requires entries <= more
    requires forall i | 0 <= i < |more| && NonceOf(more[i].request) == key :: at <= more[i].at + c.auth.retention
    ensures forall i | 0 <= i < |entries| && NonceOf(entries[i].request) == key :: at <= entries[i].at + c.auth.retention
  {
    assert forall i | 0 <= i < |entries| :: entries[i] == more[i];
  }

  lemma AdmitKeepsDelivered(c: ApiConfig, s: State, r: Request, at: int, repository: string, deliveryId: string, hash: string)
    requires Delivered(c, s, repository, deliveryId, hash)
    ensures Delivered(c, Admit(c, s, r, at), repository, deliveryId, hash)
  {
    var i :| 0 <= i < |s.entries| && NonceOf(s.entries[i].request) == NonceKey(repository, deliveryId) && c.auth.sha256(s.entries[i].request.body) == hash;
    assert Admit(c, s, r, at).entries[i] == s.entries[i];
  }

  lemma AdmitKeepsInv(c: ApiConfig, s: State, r: Request, at: int)
    requires Inv(c, s) && WellFormed(r) && s.now <= at
    ensures Inv(c, Admit(c, s, r, at))
  {
    AdmitKeepsRecorded(c, s, r, at);
    AdmitKeepsProtected(c, s, r, at);
    forall k | k in s.demos ensures Delivered(c, Admit(c, s, r, at), k.repository, s.demos[k].deliveryId, s.demos[k].requestHash) {
      AdmitKeepsDelivered(c, s, r, at, k.repository, s.demos[k].deliveryId, s.demos[k].requestHash);
    }
  }

  /** The row a handler writes after admitting `r` carries the nonce and body of `r`. */
  lemma WriteKeepsInv(c: ApiConfig, s: State, r: Request, at: int, key: Key, row: DemoRecord)
    requires Authenticate(c.auth, s.auth, r, at).1.Authenticated?
    requires Inv(c, Admit(c, s, r, at))
    requires key.repository == Lower(r.repository) && row.deliveryId == r.nonce && row.requestHash == c.auth.sha256(r.body)
    ensures Inv(c, Admit(c, s, r, at).(demos := s.demos[key := row]))
  {
    var s' := Admit(c, s, r, at);
    var s'' := s'.(demos := s.demos[key := row]);
    assert s'.entries[|s.entries|] == Entry(r, at);
    assert Delivered(c, s'', key.repository, row.deliveryId, row.requestHash);
    forall k | k in s''.demos ensures Delivered(c, s'', k.repository, s''.demos[k].deliveryId, s''.demos[k].requestHash) {
      if k != key { assert Delivered(c, s', k.repository, s.demos[k].deliveryId, s.demos[k].requestHash); }
    }
    assert forall key :: Young(c, s'', key, at) <==> Young(c, s', key, at);
  }

  lemma LaterKeepsInv(c: ApiConfig, s: State, at: int)
    requires Inv(c, s) && s.now <= at
    ensures Inv(c, s.(now := at))
  {
    ProtectedLater(c, s, at);
    forall k | k in s.demos ensures Delivered(c, s.(now := at), k.repository, s.demos[k].deliveryId, s.demos[k].requestHash) {
      assert Delivered(c, s, k.repository, s.demos[k].deliveryId, s.demos[k].requestHash);
    }
  }

  lemma DemosKeepInv(c: ApiConfig, s: State, demos: Demos)
    requires Inv(c, s)
    requires forall k | k in demos ::
               k in s.demos && demos[k].deliveryId == s.demos[k].deliveryId && demos[k].requestHash == s.demos[k].requestHash
    ensures Inv(c, s.(demos := demos))
  {
    var s' := s.(demos := demos);
    forall k | k in demos ensures Delivered(c, s', k.repository, demos[k].deliveryId, demos[k].requestHash) {
      assert Delivered(c, s, k.repository, s.demos[k].deliveryId, s.demos[k].requestHash);
    }
    assert forall key :: Young(c, s', key, s.now) <==> Young(c, s, key, s.now);
  }

  lemma RestartKeepsInv(c: ApiConfig, s: State)
    requires Inv(c, s)
    ensures Inv(c, AfterRestart(s))
  {
    var s' := AfterRestart(s);
    forall k | k in s.demos ensures Delivered(c, s', k.repository, s.demos[k].deliveryId, s.demos[k].requestHash) {
      assert Delivered(c, s, k.repository, s.demos[k].deliveryId, s.demos[k].requestHash);
    }
    assert forall key :: Young(c, s', key, s.now) <==> Young(c, s, key, s.now);
  }

  /** The handlers leave the table alone or write one row carrying the nonce and body of `r`. */
  predicate OneWrite(c: ApiConfig, s: State, r: Request, at: int, demos: Demos, key: Key) {
    && Authenticate(c.auth, s.auth, r, at).1.Authenticated?
    && key in demos && demos == s.demos[key := demos[key]]
    && key.repository == Lower(r.repository)
    && demos[key].deliveryId == r.nonce && demos[key].requestHash == c.auth.sha256(r.body)
  }

  lemma DeployWrites(c: ApiConfig, s: State, r: Request, at: int, storeAt: int) returns (key: Key)
    ensures var demos := DeployStep(c, (s.auth, s.demos), r, at, storeAt).0.1;
            demos == s.demos || OneWrite(c, s, r, at, demos, key)
  {
    var payload := c.parseDeploy(r.body);
    key := if payload.Some? then DeployKey(payload.value) else Key("", 0);
  }

  lemma DestroyWrites(c: ApiConfig, s: State, r: Request, at: int, storeAt: int) returns (key: Key)
    ensures var demos := DestroyStep(c, (s.auth, s.demos), r, at, storeAt).0.1;
            demos == s.demos || OneWrite(c, s, r, at, demos, key)
  {
    var payload := c.parseDestroy(r.body);
    key := if payload.Some? then Key(payload.value.repository, payload.value.pr) else Key("", 0);
  }

  lemma HandlerKeepsInv(c: ApiConfig, s: State, r: Request, at: int, storeAt: int, demos: Demos, key: Key)
    requires Inv(c, s) && WellFormed(r) && s.now <= at <= storeAt
    requires demos == s.demos || OneWrite(c, s, r, at, demos, key)
    ensures Inv(c, Admit(c, s, r, at).(demos := demos, now := storeAt))
  {
    AdmitKeepsInv(c, s, r, at);
    if demos != s.demos { WriteKeepsInv(c, s, r, at, key, demos[key]); }
    LaterKeepsInv(c, Admit(c, s, r, at).(demos := demos), storeAt);
  }

  lemma StepKeepsInv(c: ApiConfig, s: State, e: Event)
    requires Inv(c, s) && Enabled(s, e)
    ensures Inv(c, Do(c, s, e).0)
  {
    match e
    case Deploying(r, at, storeAt) =>
      var key := DeployWrites(c, s, r, at, storeAt);
      HandlerKeepsInv(c, s, r, at, storeAt, DeployStep(c, (s.auth, s.demos), r, at, storeAt).0.1, key);
    case Destroying(r, at, storeAt) =>
      var key := DestroyWrites(c, s, r, at, storeAt);
      HandlerKeepsInv(c, s, r, at, storeAt, DestroyStep(c, (s.auth, s.demos), r, at, storeAt).0.1, key);
    case AskingStatus(r, at) => AdmitKeepsInv(c, s, r, at);
    case Writing(key, row) => DemosKeepInv(c, s, s.demos[key := row]);
    case Removing(key) => DemosKeepInv(c, s, DeleteRecord(s.demos, key));
    case Restarting => RestartKeepsInv(c, s);
  }

  lemma {:induction false} RunKeepsInv(c: ApiConfig, s: State, events: seq<Event>)
    requires Inv(c, s) && ValidRun(c, s, events)
    ensures Inv(c, Run(c, s, events))
    decreases |events|
  {
    if events != [] {
      StepKeepsInv(c, s, events[0]);
      RunKeepsInv(c, Do(c, s, events[0]).0, events[1..]);
    }
  }

  ghost predicate Injective(f: string -> string) {
    forall a, b :: f(a) == f(b) ==> a == b
  }

  /** In every run, while all earlier uses of a nonce are young, an authenticated and admitted
      request passes the nonce table exactly when it repeats them: same method, path and body. */
  lemma YoungNonceAcceptsOnlyRepeats(c: ApiConfig, start: int, events: seq<Event>, r: Request, at: int, i: nat)
    requires Injective(c.auth.sha256)
    requires ValidRun(c, Initial(start), events)
    requires var s := Run(c, Initial(start), events);
             && i < |s.entries| && WellFormed(r) && s.now <= at
             && NonceOf(s.entries[i].request) == NonceOf(r) && Young(c, s, NonceOf(r), at)
    ensures var s := Run(c, Initial(start), events);
            var first := s.entries[i].request;
            && NonceOf(r) in Purge(s.auth.nonces, at, c.auth.retention)
            && (UseNonce(s.auth.nonces, NonceOf(r), Fingerprint(c.auth, r), at, c.auth.retention).1
                <==> Upper(r.verb) == Upper(first.verb) && r.path == first.path && r.body == first.body)
  {
    var s := Run(c, Initial(start), events);
    RunKeepsInv(c, Initial(start), events);
    ProtectedLater(c, s, at);
    assert Young(c, s.(now := at), NonceOf(r), at);
    YoungSurvivesPurge(c, s, NonceOf(r), at);
    var first := s.entries[i].request;
    JoinInjective(Lower(r.repository), Upper(r.verb), r.path, r.nonce, r.body,
                  Lower(first.repository), Upper(first.verb), first.path, first.nonce, first.body);
  }

  /** In every run, the store refuses a reused delivery ID only when the same nonce was used
      longer ago than its row is sure to be kept. */
  lemma ReuseErrorNeedsOldNonce(c: ApiConfig, start: int, events: seq<Event>, e: Event)
    requires Injective(c.auth.sha256)
    requires ValidRun(c, Initial(start), events) && Enabled(Run(c, Initial(start), events), e)
    requires Do(c, Run(c, Initial(start), events), e).1 == Some(DeliveryReused)
    ensures var s := Run(c, Initial(start), events);
            exists i | 0 <= i < |s.entries| ::
              NonceOf(s.entries[i].request) == NonceOf(e.r) && s.entries[i].at + c.auth.retention < e.at
  {
    var s := Run(c, Initial(start), events);
    RunKeepsInv(c, Initial(start), events);
    var key := ReusedRow(c, s, e);
    ReusedMeansOld(c, s, e.r, e.at, key);
  }

  /** The row whose delivery ID is reused with another request hash. */
  lemma ReusedRow(c: ApiConfig, s: State, e: Event) returns (key: Key)
    requires Do(c, s, e).1 == Some(DeliveryReused)
    ensures Authenticate(c.auth, s.auth, e.r, e.at).1.Authenticated?
    ensures key in s.demos && s.demos[key].requestHash != c.auth.sha256(e.r.body)
    ensures NonceKey(key.repository, s.demos[key].deliveryId) == NonceOf(e.r)
  {
    if e.Deploying? {
      key := DeployKey(c.parseDeploy(e.r.body).value);
    } else {
      var payload := c.parseDestroy(e.r.body).value;
      key := Key(payload.repository, payload.pr);
    }
  }

  lemma AdmittedRepeats(c: ApiConfig, s: State, r: Request, at: int, i: nat)
    requires Injective(c.auth.sha256) && Inv(c, s) && WellFormed(r) && s.now <= at && i < |s.entries|
    requires Authenticate(c.auth, s.auth, r, at).1.Authenticated?
    requires NonceOf(s.entries[i].request) == NonceOf(r) && Young(c, s, NonceOf(r), at)
    ensures s.entries[i].request.body == r.body
  {
    var s' := Admit(c, s, r, at);
    AdmitKeepsInv(c, s, r, at);
    assert s'.entries == s.entries + [Entry(r, at)];
    SameNonceSameBody(c, s', i, |s.entries|);
  }

  lemma ReusedMeansOld(c: ApiConfig, s: State, r: Request, at: int, key: Key)
    requires Injective(c.auth.sha256) && Inv(c, s) && WellFormed(r) && s.now <= at
    requires Authenticate(c.auth, s.auth, r, at).1.Authenticated?
    requires key in s.demos && s.demos[key].requestHash != c.auth.sha256(r.body)
    requires NonceKey(key.repository, s.demos[key].deliveryId) == NonceOf(r)
    ensures !Young(c, s, NonceOf(r), at)
  {
    assert Delivered(c, s, key.repository, s.demos[key].deliveryId, s.demos[key].requestHash);
    var i :| 0 <= i < |s.entries| && NonceOf(s.entries[i].request) == NonceOf(r)
             && c.auth.sha256(s.entries[i].request.body) == s.demos[key].requestHash;
    if Young(c, s, NonceOf(r), at) { AdmittedRepeats(c, s, r, at, i); }
  }

  lemma SameNonceSameBody(c: ApiConfig, s: State, i: nat, j: nat)
    requires Injective(c.auth.sha256) && YoungProtected(c, s) && WellLogged(s)
    requires i < |s.entries| && j < |s.entries|
    requires NonceOf(s.entries[i].request) == NonceOf(s.entries[j].request)
    requires Young(c, s, NonceOf(s.entries[i].request), s.now)
    ensures s.entries[i].request.body == s.entries[j].request.body
  {
    var a, b := s.entries[i].request, s.entries[j].request;
    JoinInjective(Lower(a.repository), Upper(a.verb), a.path, a.nonce, a.body,
                  Lower(b.repository), Upper(b.verb), b.path, b.nonce, b.body);
  }

  // ---------------------------------------------------------------- accepted deliveries decide

  /** The hash is that of a destroy body. */
  ghost predicate OfDestroy(c: ApiConfig, hash: string) {
    exists body :: c.auth.sha256(body) == hash && c.parseDestroy(body).Some?
  }

  /** With schemas that exclude each other, a request hash tells the kind of the request. */
  lemma HashTellsKind(c: ApiConfig, body: string)
    requires Parses(c) && Injective(c.auth.sha256)
    ensures c.parseDestroy(body).Some? ==> OfDestroy(c, c.auth.sha256(body))
    ensures c.parseDeploy(body).Some? ==> !OfDestroy(c, c.auth.sha256(body))
  {
    if OfDestroy(c, c.auth.sha256(body)) {
      var other :| c.auth.sha256(other) == c.auth.sha256(body) && c.parseDestroy(other).Some?;
      assert other == body;
    }
    assert c.parseDeploy(body) == DeployModel(c.json(body)) && c.parseDestroy(body) == DestroyModel(c.json(body));
    DisjointModels(c.json(body));
  }

  /** A row is wanted exactly if its last effective request was a deploy. */
  ghost predicate PresenceOk(c: ApiConfig, demos: Demos) {
    forall k | k in demos :: demos[k].desiredPresent <==> !OfDestroy(c, demos[k].requestHash)
  }

  lemma UpsertPresence(c: ApiConfig, demos: Demos, request: DeployRequest, hash: string, now: int)
    requires PresenceOk(c, demos) && !OfDestroy(c, hash)
    ensures var demos', key := UpsertDeploy(demos, request, hash, now), DeployKey(request);
            PresenceOk(c, demos')
            && (!Judge(demos, key, request.deliveryId, hash).Conflict? ==> key in demos' && demos'[key].desiredPresent)
  {
  }

  lemma DestroyPresence(c: ApiConfig, demos: Demos, key: Key, id: string, hash: string, now: int)
    requires PresenceOk(c, demos) && OfDestroy(c, hash)
    ensures var demos' := RequestDestroy(demos, key, id, hash, now);
            PresenceOk(c, demos') && (!Judge(demos, key, id, hash).Conflict? ==> key in demos' && !demos'[key].desiredPresent)
  {
  }

  lemma DeployStepPresence(c: ApiConfig, s: (AuthState, Demos), r: Request, now: int, storeNow: int)
    requires Parses(c) && Injective(c.auth.sha256) && PresenceOk(c, s.1)
    ensures var (s', reply) := DeployStep(c, s, r, now, storeNow);
            PresenceOk(c, s'.1) && (reply.Accepted? ==> reply.row.desiredPresent)
  {
    var outcome := Authenticate(c.auth, s.0, r, now).1;
    if outcome.Authenticated? && DeployGuard(c, outcome.repository, r).Fine? {
      HashTellsKind(c, r.body);
      UpsertPresence(c, s.1, DeployGuard(c, outcome.repository, r).value, c.auth.sha256(r.body), storeNow);
    }
  }

  lemma DestroyStepPresence(c: ApiConfig, s: (AuthState, Demos), r: Request, now: int, storeNow: int)
    requires Parses(c) && Injective(c.auth.sha256) && PresenceOk(c, s.1)
    ensures var (s', reply) := DestroyStep(c, s, r, now, storeNow);
            PresenceOk(c, s'.1) && (reply.Accepted? ==> !reply.row.desiredPresent)
  {
    var outcome := Authenticate(c.auth, s.0, r, now).1;
    if outcome.Authenticated? && DestroyGuard(c, outcome.repository, r).Fine? {
      HashTellsKind(c, r.body);
      var payload := DestroyGuard(c, outcome.repository, r).value;
      DestroyPresence(c, s.1, Key(payload.repository, payload.pr), payload.deliveryId, c.auth.sha256(r.body), storeNow);
    }
  }

  lemma StepKeepsPresence(c: ApiConfig, s: State, e: Event)
    requires Parses(c) && Injective(c.auth.sha256) && PresenceOk(c, s.demos) && Enabled(s, e)
    ensures PresenceOk(c, Do(c, s, e).0.demos)
  {
    match e
    case Deploying(r, at, storeAt) => DeployStepPresence(c, (s.auth, s.demos), r, at, storeAt);
    case Destroying(r, at, storeAt) => DestroyStepPresence(c, (s.auth, s.demos), r, at, storeAt);
    case _ =>
  }

  lemma {:induction false} RunKeepsPresence(c: ApiConfig, s: State, events: seq<Event>)
    requires Parses(c) && Injective(c.auth.sha256) && PresenceOk(c, s.demos) && ValidRun(c, s, events)
    ensures PresenceOk(c, Run(c, s, events).demos)
    decreases |events|
  {
    if events != [] {
      StepKeepsPresence(c, s, events[0]);
      RunKeepsPresence(c, Do(c, s, events[0]).0, events[1..]);
    }
  }

  /** In every run, an accepted deploy returns a wanted demo and an accepted destroy an unwanted one,
      whether it changed the row or repeated its last delivery. */
  lemma AcceptedDecidesPresence(c: ApiConfig, start: int, events: seq<Event>, e: Event)
    requires Parses(c) && Injective(c.auth.sha256)
    requires ValidRun(c, Initial(start), events) && Enabled(Run(c, Initial(start), events), e)
    requires Do(c, Run(c, Initial(start), events), e).1.Some? && Do(c, Run(c, Initial(start), events), e).1.value.Accepted?
    ensures Do(c, Run(c, Initial(start), events), e).1.value.row.desiredPresent <==> e.Deploying?
  {
    var s := Run(c, Initial(start), events);
    RunKeepsPresence(c, Initial(start), events);
    match e
    case Deploying(r, at, storeAt) => DeployStepPresence(c, (s.auth, s.demos), r, at, storeAt);
    case Destroying(r, at, storeAt) => DestroyStepPresence(c, (s.auth, s.demos), r, at, storeAt);
    case _ =>
  }
}
