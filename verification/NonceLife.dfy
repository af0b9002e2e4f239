/** How long a nonce row protects its request (src/demo_controller/auth.py, store.py): over every run of
    the handlers, against signatures that may be refreshed. */
module NonceLife {
  import opened Text
  import opened Models
  import opened Store
  import opened Auth
  import opened Api

  // ---------------------------------------------------------------- within the life of a row

  /** An entry lies in the life of its nonce's present row and has its fingerprint, or that life began
      after the entry. */
  predicate EntryOk(c: ApiConfig, s: State, e: Entry) {
    var key := NonceOf(e.request);
    && e.at <= s.now && e.request.nonce != ""
    && if key in s.auth.nonces && s.auth.nonces[key].seenAt <= e.at then
         s.auth.nonces[key].fingerprint == Fingerprint(c.auth, e.request) && e.at <= s.auth.nonces[key].seenAt + c.auth.retention
       else
         e.at < s.now
  }

  predicate EntriesOk(c: ApiConfig, s: State) {
    forall i | 0 <= i < |s.entries| :: EntryOk(c, s, s.entries[i])
  }

  ghost predicate LifeInv(c: ApiConfig, s: State) {
    RowsRecorded(c, s) && WellLogged(s) && EntriesOk(c, s)
  }

  lemma RowsBegan(c: ApiConfig, s: State, key: NonceKey)
    requires RowsRecorded(c, s) && EntriesOk(c, s) && key in s.auth.nonces
    ensures s.auth.nonces[key].seenAt <= s.now
  {
    var i :| 0 <= i < |s.entries| && NonceOf(s.entries[i].request) == key && s.entries[i].at == s.auth.nonces[key].seenAt;
    assert EntryOk(c, s, s.entries[i]);
  }

  lemma OldEntryKept(c: ApiConfig, s: State, r: Request, at: int, e: Entry)
    requires EntryOk(c, s, e) && s.now <= at
    ensures EntryOk(c, Admit(c, s, r, at), e)
  {
    AdmitEffect(c, s, r, at);
  }

  lemma NewEntryOk(c: ApiConfig, s: State, r: Request, at: int)
    requires s.now <= at && |Admit(c, s, r, at).entries| > |s.entries|
    requires NonceOf(r) in s.auth.nonces ==> s.auth.nonces[NonceOf(r)].seenAt <= s.now
    ensures EntryOk(c, Admit(c, s, r, at), Entry(r, at)) && Admit(c, s, r, at).entries == s.entries + [Entry(r, at)]
  {
    AdmitEffect(c, s, r, at);
  }

  lemma AdmitKeepsEntry(c: ApiConfig, s: State, r: Request, at: int, i: nat)
    requires RowsRecorded(c, s) && EntriesOk(c, s) && s.now <= at && i < |Admit(c, s, r, at).entries|
    ensures EntryOk(c, Admit(c, s, r, at), Admit(c, s, r, at).entries[i])
  {
    if i < |s.entries| {
      assert Admit(c, s, r, at).entries[i] == s.entries[i];
      OldEntryKept(c, s, r, at, s.entries[i]);
    } else {
      if NonceOf(r) in s.auth.nonces { RowsBegan(c, s, NonceOf(r)); }
      NewEntryOk(c, s, r, at);
    }
  }

  lemma AdmitKeepsLife(c: ApiConfig, s: State, r: Request, at: int)
    requires LifeInv(c, s) && WellFormed(r) && s.now <= at
    ensures LifeInv(c, Admit(c, s, r, at))
  {
    AdmitKeepsRecorded(c, s, r, at);
    forall i | 0 <= i < |Admit(c, s, r, at).entries| ensures EntryOk(c, Admit(c, s, r, at), Admit(c, s, r, at).entries[i]) {
      AdmitKeepsEntry(c, s, r, at, i);
    }
  }

  lemma LaterKeepsLife(c: ApiConfig, s: State, demos: Demos, now: int)
    requires LifeInv(c, s) && s.now <= now
    ensures LifeInv(c, s.(demos := demos, now := now))
  {
    forall i | 0 <= i < |s.entries| ensures EntryOk(c, s.(demos := demos, now := now), s.entries[i]) {
      assert EntryOk(c, s, s.entries[i]);
    }
  }

  lemma RestartKeepsLife(c: ApiConfig, s: State)
    requires LifeInv(c, s)
    ensures LifeInv(c, AfterRestart(s))
  {
    forall i | 0 <= i < |s.entries| ensures EntryOk(c, AfterRestart(s), s.entries[i]) {
      assert EntryOk(c, s, s.entries[i]);
    }
  }

  lemma StepKeepsLife(c: ApiConfig, s: State, e: Event)
    requires LifeInv(c, s) && Enabled(s, e)
    ensures LifeInv(c, Do(c, s, e).0)
  {
    var s' := Do(c, s, e).0;
    match e
    case Deploying(r, at, _) => AdmitKeepsLife(c, s, r, at); LaterKeepsLife(c, Admit(c, s, r, at), s'.demos, s'.now);
    case Destroying(r, at, _) => AdmitKeepsLife(c, s, r, at); LaterKeepsLife(c, Admit(c, s, r, at), s'.demos, s'.now);
    case AskingStatus(r, at) => AdmitKeepsLife(c, s, r, at);
    case Writing(_, _) => LaterKeepsLife(c, s, s'.demos, s'.now);
    case Removing(_) => LaterKeepsLife(c, s, s'.demos, s'.now);
    case Restarting => RestartKeepsLife(c, s);
  }

  lemma {:induction false} RunKeepsLife(c: ApiConfig, s: State, events: seq<Event>)
    requires LifeInv(c, s) && ValidRun(c, s, events)
    ensures LifeInv(c, Run(c, s, events))
    decreases |events|
  {
    if events != [] {
      StepKeepsLife(c, s, events[0]);
      RunKeepsLife(c, Do(c, s, events[0]).0, events[1..]);
    }
  }

  /** In every run, all requests accepted since the present row of a nonce was recorded share method,
      path and body with the one that recorded it; while the row is kept, a further request passes the
      nonce table exactly if it shares them too. */
  lemma RowAcceptsOnlyRepeats(c: ApiConfig, start: int, events: seq<Event>, r: Request, at: int) returns (first: nat)
    requires Injective(c.auth.sha256) && ValidRun(c, Initial(start), events)
    requires WellFormed(r) && NonceOf(r) in Run(c, Initial(start), events).auth.nonces
    ensures var s := Run(c, Initial(start), events);
            && first < |s.entries| && NonceOf(s.entries[first].request) == NonceOf(r)
            && s.entries[first].at == s.auth.nonces[NonceOf(r)].seenAt
            && (forall i | 0 <= i < |s.entries| && NonceOf(s.entries[i].request) == NonceOf(r) && s.entries[i].at >= s.entries[first].at ::
                  SameMessage(s.entries[i].request, s.entries[first].request))
            && (NonceOf(r) in Purge(s.auth.nonces, at, c.auth.retention) ==>
                  (UseNonce(s.auth.nonces, NonceOf(r), Fingerprint(c.auth, r), at, c.auth.retention).1
                   <==> SameMessage(r, s.entries[first].request)))
  {
    var s := Run(c, Initial(start), events);
    RunKeepsLife(c, Initial(start), events);
    var f: nat :| f < |s.entries| && NonceOf(s.entries[f].request) == NonceOf(r) && s.entries[f].at == s.auth.nonces[NonceOf(r)].seenAt;
    first := f;
    var row := s.auth.nonces[NonceOf(r)];
    assert EntryOk(c, s, s.entries[f]);
    forall i | 0 <= i < |s.entries| && NonceOf(s.entries[i].request) == NonceOf(r) && s.entries[i].at >= s.entries[f].at
      ensures SameMessage(s.entries[i].request, s.entries[f].request)
    {
      assert EntryOk(c, s, s.entries[i]);
      SamePrint(c, s.entries[i].request, s.entries[f].request);
    }
    SamePrint(c, r, s.entries[f].request);
  }

  predicate SameMessage(a: Request, b: Request) {
    Upper(a.verb) == Upper(b.verb) && a.path == b.path && a.body == b.body
  }

  lemma SamePrint(c: ApiConfig, a: Request, b: Request)
    requires Injective(c.auth.sha256) && WellFormed(a) && WellFormed(b) && NonceOf(a) == NonceOf(b)
    ensures Fingerprint(c.auth, a) == Fingerprint(c.auth, b) <==> SameMessage(a, b)
  {
    JoinInjective(Lower(a.repository), Upper(a.verb), a.path, a.nonce, a.body,
                  Lower(b.repository), Upper(b.verb), b.path, b.nonce, b.body);
  }

  // ---------------------------------------------------------------- how long a row lasts

  lemma {:induction false} RunGoesOn(c: ApiConfig, s: State, events: seq<Event>)
    requires ValidRun(c, s, events)
    ensures s.now <= Run(c, s, events).now
    decreases |events|
  {
    if events != [] { RunGoesOn(c, Do(c, s, events[0]).0, events[1..]); }
  }

  lemma AdmitKeepsRow(c: ApiConfig, s: State, r: Request, at: int, key: NonceKey)
    requires key in s.auth.nonces && at <= s.auth.nonces[key].seenAt + c.auth.retention
    ensures key in Admit(c, s, r, at).auth.nonces && Admit(c, s, r, at).auth.nonces[key] == s.auth.nonces[key]
  {
    AdmitEffect(c, s, r, at);
  }

  /** Nothing removes or replaces a row during its retention. */
  lemma {:induction false} RunKeepsRow(c: ApiConfig, s: State, events: seq<Event>, key: NonceKey)
    requires ValidRun(c, s, events) && key in s.auth.nonces
    requires Run(c, s, events).now <= s.auth.nonces[key].seenAt + c.auth.retention
    ensures var s' := Run(c, s, events); key in s'.auth.nonces && s'.auth.nonces[key] == s.auth.nonces[key]
    decreases |events|
  {
    if events != [] {
      var s' := Do(c, s, events[0]).0;
      RunGoesOn(c, s', events[1..]);
      if Asks(events[0]) { AdmitKeepsRow(c, s, events[0].r, events[0].at, key); }
      RunKeepsRow(c, s', events[1..], key);
    }
  }

  predicate Asks(e: Event) {
    e.Deploying? || e.Destroying? || e.AskingStatus?
  }

  /** A use of the nonce at this time finds this row. */
  predicate Found(c: ApiConfig, s: State, key: NonceKey, row: NonceRow, at: int) {
    key in Purge(s.auth.nonces, at, c.auth.retention) && s.auth.nonces[key] == row
  }

  /** Whatever happens from here on, every use up to `until` finds the present row. */
  ghost predicate FoundUntil(c: ApiConfig, s: State, key: NonceKey, until: int)
    requires key in s.auth.nonces
  {
    forall events, at | ValidRun(c, s, events) && Run(c, s, events).now <= at <= until ::
      Found(c, Run(c, s, events), key, s.auth.nonces[key], at)
  }

  lemma FoundWithin(c: ApiConfig, s: State, key: NonceKey, until: int)
    requires key in s.auth.nonces && until <= s.auth.nonces[key].seenAt + c.auth.retention
    ensures FoundUntil(c, s, key, until)
  {
    forall events, at | ValidRun(c, s, events) && Run(c, s, events).now <= at <= until
      ensures Found(c, Run(c, s, events), key, s.auth.nonces[key], at)
    {
      RunKeepsRow(c, s, events, key);
    }
  }

  lemma FoundUntilIff(c: ApiConfig, s: State, key: NonceKey, until: int)
    requires key in s.auth.nonces
    ensures FoundUntil(c, s, key, until) <==> until < s.now || until <= s.auth.nonces[key].seenAt + c.auth.retention
  {
    if until < s.now {
      forall events | ValidRun(c, s, events) ensures s.now <= Run(c, s, events).now {
        RunGoesOn(c, s, events);
      }
    } else if until <= s.auth.nonces[key].seenAt + c.auth.retention {
      FoundWithin(c, s, key, until);
    } else {
      assert ValidRun(c, s, []) && Run(c, s, []) == s;
      assert !Found(c, Run(c, s, []), key, s.auth.nonces[key], until);
    }
  }

  // ---------------------------------------------------------------- signatures and their rows

  /** The event is a request that authenticates and passes the nonce table. */
  predicate Accepts(c: ApiConfig, s: State, e: Event) {
    Enabled(s, e) && Asks(e) && Authenticate(c.auth, s.auth, e.r, e.at).1.Authenticated?
  }

  /** The last moment at which the request may be presented. */
  function LastFresh(c: ApiConfig, r: Request): int
    requires r.timestamp.Some?
  {
    r.timestamp.value + c.auth.maxAge
  }

  lemma AcceptedRow(c: ApiConfig, s: State, e: Event)
    requires Accepts(c, s, e)
    ensures e.r.timestamp.Some? && FreshAt(e.r.timestamp.value, e.at, c.auth.maxAge)
    ensures var nonces, kept, key := Do(c, s, e).0.auth.nonces, Purge(s.auth.nonces, e.at, c.auth.retention), NonceOf(e.r);
            key in nonces && nonces[key] == if key in kept then kept[key] else NonceRow(Fingerprint(c.auth, e.r), e.at)
  {
    AdmitEffect(c, s, e.r, e.at);
  }

  /** In every run, an accepted request's nonce row is found at every later use while the signature is
      fresh, exactly if the timestamp is no later than the recording of the row allows, or if the answer
      took so long that the signature is no longer fresh. The row keeps out other messages under the
      nonce; it does not keep the same request from being accepted again (see module Replay). */
  lemma RowFoundIff(c: ApiConfig, start: int, events: seq<Event>, e: Event)
    requires ValidRun(c, Initial(start), events) && Accepts(c, Run(c, Initial(start), events), e)
    ensures e.r.timestamp.Some?
    ensures var s' := Do(c, Run(c, Initial(start), events), e).0;
            var key := NonceOf(e.r);
            && key in s'.auth.nonces && s'.auth.nonces[key].seenAt <= e.at
            && (FoundUntil(c, s', key, LastFresh(c, e.r))
                <==> s'.now > LastFresh(c, e.r)
                     || e.r.timestamp.value + c.auth.maxAge <= s'.auth.nonces[key].seenAt + c.auth.retention)
  {
    var s := Run(c, Initial(start), events);
    RunKeepsLife(c, Initial(start), events);
    AcceptedRow(c, s, e);
    if NonceOf(e.r) in s.auth.nonces { RowsBegan(c, s, NonceOf(e.r)); }
    FoundUntilIff(c, Do(c, s, e).0, NonceOf(e.r), LastFresh(c, e.r));
  }

  /** The request of this event recorded a new row. */
  predicate Records(c: ApiConfig, s: State, e: Event) {
    Accepts(c, s, e) && NonceOf(e.r) !in Purge(s.auth.nonces, e.at, c.auth.retention)
  }

  /** The row outlives the signature that recorded it, unchanged. */
  ghost predicate Outlives(c: ApiConfig, s: State, e: Event)
    requires Records(c, s, e)
  {
    var s', key := Do(c, s, e).0, NonceOf(e.r);
    && e.r.timestamp.Some?
    && key in s'.auth.nonces && s'.auth.nonces[key] == NonceRow(Fingerprint(c.auth, e.r), e.at)
    && FoundUntil(c, s', key, LastFresh(c, e.r))
  }

  lemma RecordedOutlives(c: ApiConfig, s: State, e: Event)
    requires Records(c, s, e) && c.auth.retention >= 2 * c.auth.maxAge
    ensures Outlives(c, s, e)
  {
    AcceptedRow(c, s, e);
    FoundWithin(c, Do(c, s, e).0, NonceOf(e.r), LastFresh(c, e.r));
  }

  /** A request that a fresh controller accepts as early as its timestamp allows. */
  predicate Presentable(c: ApiConfig, r: Request, at: int) {
    && WellFormed(r) && r.nonce != "" && r.timestamp == Some(at + c.auth.maxAge)
    && Precheck(c.auth, r, at).Authenticated? && c.auth.rateLimit >= 1
  }

  lemma FirstIsRecorded(c: ApiConfig, r: Request, at: int)
    requires Presentable(c, r, at)
    ensures Records(c, Initial(at), AskingStatus(r, at))
  {
  }

  /** If the request of `e` recorded a row after this run, the row outlives it. */
  ghost predicate Kept(c: ApiConfig, start: int, events: seq<Event>, e: Event) {
    ValidRun(c, Initial(start), events) && Records(c, Run(c, Initial(start), events), e) ==>
      Outlives(c, Run(c, Initial(start), events), e)
  }

  /** Twice the signature age is the least retention under which, in every run, every recorded row
      outlives the signature that recorded it. */
  lemma RetentionIsTight(c: ApiConfig, r: Request, at: int)
    requires Presentable(c, r, at)
    ensures (forall start, events, e :: Kept(c, start, events, e)) <==> c.auth.retention >= 2 * c.auth.maxAge
  {
    if c.auth.retention >= 2 * c.auth.maxAge {
      forall start, events, e ensures Kept(c, start, events, e) {
        if ValidRun(c, Initial(start), events) && Records(c, Run(c, Initial(start), events), e) {
          RecordedOutlives(c, Run(c, Initial(start), events), e);
        }
      }
    } else {
      var s, e := Initial(at), AskingStatus(r, at);
      FirstIsRecorded(c, r, at);
      AcceptedRow(c, s, e);
      FoundUntilIff(c, Do(c, s, e).0, NonceOf(r), LastFresh(c, r));
      assert !Kept(c, at, [], e);
    }
  }

  /** What that means: with a shorter retention the same request is accepted as new once more. */
  lemma ShortRetentionReaccepts(c: ApiConfig, r: Request, at: int) returns (events: seq<Event>)
    requires Presentable(c, r, at) && c.auth.rateLimit >= 2 && c.auth.retention < 2 * c.auth.maxAge
    ensures events == [AskingStatus(r, at), AskingStatus(r, at + 2 * c.auth.maxAge)] && ValidRun(c, Initial(at), events)
    ensures var s := Run(c, Initial(at), events);
            |s.entries| == 2 && s.auth.nonces == map[NonceOf(r) := NonceRow(Fingerprint(c.auth, r), at + 2 * c.auth.maxAge)]
  {
    var s := Initial(at);
    Admits(c, s, r, at);
    var s1 := Admit(c, s, r, at);
    Admits(c, s1, r, at + 2 * c.auth.maxAge);
    events := AndThen(c, s, [], AskingStatus(r, at));
    events := AndThen(c, s, events, AskingStatus(r, at + 2 * c.auth.maxAge));
    assert s.auth.nonces[NonceOf(r) := NonceRow(Fingerprint(c.auth, r), at)] == s1.auth.nonces;
    assert Purge(s1.auth.nonces, at + 2 * c.auth.maxAge, c.auth.retention) == map[];
  }

  lemma {:induction false} AndThen(c: ApiConfig, s: State, events: seq<Event>, e: Event) returns (more: seq<Event>)
    requires ValidRun(c, s, events) && Enabled(Run(c, s, events), e)
    ensures more == events + [e] && ValidRun(c, s, more) && Run(c, s, more) == Do(c, Run(c, s, events), e).0
    decreases |events|
  {
    more := events + [e];
    if events == [] {
      assert more[1..] == [];
    } else {
      var rest := AndThen(c, Do(c, s, events[0]).0, events[1..], e);
      assert more[1..] == rest;
    }
  }

  // ---------------------------------------------------------------- what the handlers then do

  function Admitted(c: ApiConfig, s: State, r: Request): nat {
    |Auth.Times(s.auth, Lower(r.repository))|
  }

  lemma {:induction false} ExpireShrinks(times: seq<int>, now: int)
    ensures |Expire(times, now)| <= |times|
  {
    if times != [] { ExpireShrinks(times[1..], now); }
  }

  /** A request with a good signature is accepted while the rate allows and its row, if kept, is its own. */
  lemma Admits(c: ApiConfig, s: State, r: Request, at: int)
    requires Precheck(c.auth, r, at).Authenticated? && r.nonce != "" && Admitted(c, s, r) < c.auth.rateLimit
    requires var kept := Purge(s.auth.nonces, at, c.auth.retention);
             NonceOf(r) in kept ==> kept[NonceOf(r)].fingerprint == Fingerprint(c.auth, r)
    ensures Authenticate(c.auth, s.auth, r, at).1 == Authenticated(Lower(r.repository))
    ensures var kept, s' := Purge(s.auth.nonces, at, c.auth.retention), Admit(c, s, r, at);
            && s'.entries == s.entries + [Entry(r, at)] && Admitted(c, s', r) <= Admitted(c, s, r) + 1
            && s'.auth.nonces == if NonceOf(r) in kept then kept else kept[NonceOf(r) := NonceRow(Fingerprint(c.auth, r), at)]
  {
    ExpireShrinks(Auth.Times(s.auth, Lower(r.repository)), at);
  }

  lemma DeployDone(c: ApiConfig, s: State, r: Request, at: int)
    requires Authenticate(c.auth, s.auth, r, at).1 == Authenticated(Lower(r.repository))
    requires DeployGuard(c, Lower(r.repository), r).Fine?
    ensures var payload := DeployGuard(c, Lower(r.repository), r).value;
            Do(c, s, Deploying(r, at, at)).0
            == Admit(c, s, r, at).(demos := UpsertDeploy(s.demos, payload, c.auth.sha256(r.body), at))
  {
  }

  lemma DestroyDone(c: ApiConfig, s: State, r: Request, at: int)
    requires Authenticate(c.auth, s.auth, r, at).1 == Authenticated(Lower(r.repository))
    requires DestroyGuard(c, Lower(r.repository), r).Fine?
    ensures var payload := DestroyGuard(c, Lower(r.repository), r).value;
            Do(c, s, Destroying(r, at, at)).0
            == Admit(c, s, r, at).(demos := RequestDestroy(s.demos, Key(payload.repository, payload.pr), payload.deliveryId, c.auth.sha256(r.body), at))
  {
  }
}
