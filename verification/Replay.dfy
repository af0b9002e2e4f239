/** Requests presented again. A nonce row keeps out a different message under the same nonce and nothing
    else: the same request is accepted at every moment its signature is fresh and the rate allows. What
    it then does to the store depends on the row of the demo alone, which remembers one delivery ID. */
module Replay {
  import opened Text
  import opened Models
  import opened Store
  import opened Auth
  import opened Api
  import opened NonceLife

  /** The request of an entry, presented at `at`, has a fresh signature, and the rate allows it. */
  predicate PresentableAt(c: ApiConfig, s: State, r: Request, at: int) {
    && s.now <= at && Precheck(c.auth, r, at).Authenticated?
    && CheckRate(Auth.Times(s.auth, Lower(r.repository)), at, c.auth.rateLimit).1
  }

  /** The nonce table at `at` holds another message under the request's nonce. */
  predicate Displaced(c: ApiConfig, s: State, r: Request, at: int) {
    var kept := Purge(s.auth.nonces, at, c.auth.retention);
    NonceOf(r) in kept && kept[NonceOf(r)].fingerprint != Fingerprint(c.auth, r)
  }

  lemma PassesUnlessDisplaced(c: ApiConfig, s: State, r: Request, at: int)
    requires PresentableAt(c, s, r, at) && r.nonce != ""
    ensures Authenticate(c.auth, s.auth, r, at).1.Authenticated? <==> !Displaced(c, s, r, at)
    ensures !Displaced(c, s, r, at) ==> Authenticate(c.auth, s.auth, r, at).1 == Authenticated(Lower(r.repository))
  {
  }

  /** In every run, a request that was accepted once is accepted again whenever its signature is fresh
      and the rate allows, exactly unless another message holds its nonce by then; and none does as long
      as the row is the one it was accepted under, or is gone. */
  lemma AcceptedAgainIff(c: ApiConfig, start: int, events: seq<Event>, i: nat, at: int)
    requires ValidRun(c, Initial(start), events) && i < |Run(c, Initial(start), events).entries|
    requires PresentableAt(c, Run(c, Initial(start), events), Run(c, Initial(start), events).entries[i].request, at)
    ensures var s := Run(c, Initial(start), events);
            var e, key := s.entries[i], NonceOf(s.entries[i].request);
            && (Authenticate(c.auth, s.auth, e.request, at).1.Authenticated? <==> !Displaced(c, s, e.request, at))
            && (key !in Purge(s.auth.nonces, at, c.auth.retention) || s.auth.nonces[key].seenAt <= e.at ==> !Displaced(c, s, e.request, at))
  {
    var s := Run(c, Initial(start), events);
    RunKeepsLife(c, Initial(start), events);
    assert EntryOk(c, s, s.entries[i]);
    PassesUnlessDisplaced(c, s, s.entries[i].request, at);
  }

  // ---------------------------------------------------------------- when a delivery takes effect

  /** An authenticated deploy that passes the guards changes the store exactly unless its demo's row
      carries its delivery ID. */
  lemma DeployTakesEffectIff(c: ApiConfig, s: State, r: Request, at: int)
    requires Authenticate(c.auth, s.auth, r, at).1 == Authenticated(Lower(r.repository))
    requires DeployGuard(c, Lower(r.repository), r).Fine?
    ensures var k := DeployKey(DeployGuard(c, Lower(r.repository), r).value);
            Do(c, s, Deploying(r, at, at)).0.demos == s.demos <==> k in s.demos && s.demos[k].deliveryId == r.nonce
  {
    DeployDone(c, s, r, at);
    var payload := DeployGuard(c, Lower(r.repository), r).value;
    var demos := UpsertDeploy(s.demos, payload, c.auth.sha256(r.body), at);
    assert !(DeployKey(payload) in s.demos && s.demos[DeployKey(payload)].deliveryId == r.nonce) ==>
        DeployKey(payload) in demos && demos[DeployKey(payload)].deliveryId == r.nonce;
  }

  lemma DestroyTakesEffectIff(c: ApiConfig, s: State, r: Request, at: int)
    requires Authenticate(c.auth, s.auth, r, at).1 == Authenticated(Lower(r.repository))
    requires DestroyGuard(c, Lower(r.repository), r).Fine?
    ensures var payload := DestroyGuard(c, Lower(r.repository), r).value; var k := Key(payload.repository, payload.pr);
            Do(c, s, Destroying(r, at, at)).0.demos == s.demos <==> k in s.demos && s.demos[k].deliveryId == r.nonce
  {
    DestroyDone(c, s, r, at);
    var payload := DestroyGuard(c, Lower(r.repository), r).value;
    var k := Key(payload.repository, payload.pr);
    var demos := RequestDestroy(s.demos, k, payload.deliveryId, c.auth.sha256(r.body), at);
    assert !(k in s.demos && s.demos[k].deliveryId == r.nonce) ==> k in demos && demos[k].deliveryId == r.nonce;
  }

  /** When a replayed deploy changes the store, in every run: while its signature is fresh and the rate
      allows, exactly if no other message holds its nonce and its demo's row has gone or carries another
      delivery ID, as it does once any other delivery for the demo was accepted in between. */
  lemma ReplayedDeployIff(c: ApiConfig, start: int, events: seq<Event>, i: nat, at: int)
    requires ValidRun(c, Initial(start), events) && i < |Run(c, Initial(start), events).entries|
    requires PresentableAt(c, Run(c, Initial(start), events), Run(c, Initial(start), events).entries[i].request, at)
    requires var r := Run(c, Initial(start), events).entries[i].request; DeployGuard(c, Lower(r.repository), r).Fine?
    ensures var s := Run(c, Initial(start), events);
            var r := s.entries[i].request;
            var k := DeployKey(DeployGuard(c, Lower(r.repository), r).value);
            Do(c, s, Deploying(r, at, at)).0.demos != s.demos
            <==> !Displaced(c, s, r, at) && !(k in s.demos && s.demos[k].deliveryId == r.nonce)
  {
    var s := Run(c, Initial(start), events);
    var r := s.entries[i].request;
    RunKeepsLife(c, Initial(start), events);
    assert EntryOk(c, s, s.entries[i]);
    PassesUnlessDisplaced(c, s, r, at);
    if !Displaced(c, s, r, at) { DeployTakesEffectIff(c, s, r, at); }
  }

  /** The same for a replayed destroy. */
  lemma ReplayedDestroyIff(c: ApiConfig, start: int, events: seq<Event>, i: nat, at: int)
    requires ValidRun(c, Initial(start), events) && i < |Run(c, Initial(start), events).entries|
    requires PresentableAt(c, Run(c, Initial(start), events), Run(c, Initial(start), events).entries[i].request, at)
    requires var r := Run(c, Initial(start), events).entries[i].request; DestroyGuard(c, Lower(r.repository), r).Fine?
    ensures var s := Run(c, Initial(start), events);
            var r := s.entries[i].request;
            var payload := DestroyGuard(c, Lower(r.repository), r).value;
            var k := Key(payload.repository, payload.pr);
            Do(c, s, Destroying(r, at, at)).0.demos != s.demos
            <==> !Displaced(c, s, r, at) && !(k in s.demos && s.demos[k].deliveryId == r.nonce)
  {
    var s := Run(c, Initial(start), events);
    var r := s.entries[i].request;
    RunKeepsLife(c, Initial(start), events);
    assert EntryOk(c, s, s.entries[i]);
    PassesUnlessDisplaced(c, s, r, at);
    if !Displaced(c, s, r, at) { DestroyTakesEffectIff(c, s, r, at); }
  }

  // ---------------------------------------------------------------- a destroyed demo comes back

  /** The same message under the same nonce, perhaps signed again with another timestamp. */
  predicate Refreshed(a: Request, b: Request) {
    b == a.(timestampText := b.timestampText, timestamp := b.timestamp, signature := b.signature)
  }

  /** A deploy, a destroy of its demo, and the deploy once more while its signature is fresh. */
  predicate Presented(c: ApiConfig, deploy: Request, destroy: Request, again: Request, t0: int, t1: int, t2: int) {
    && WellFormed(deploy) && WellFormed(destroy) && Refreshed(deploy, again) && deploy.nonce != destroy.nonce
    && deploy.nonce != "" && destroy.nonce != "" && Lower(deploy.repository) == Lower(destroy.repository)
    && t0 <= t1 <= t2 && c.auth.rateLimit >= 3
    && Precheck(c.auth, deploy, t0).Authenticated? && Precheck(c.auth, destroy, t1).Authenticated?
    && Precheck(c.auth, again, t2).Authenticated?
    && DeployGuard(c, Lower(deploy.repository), deploy).Fine? && DestroyGuard(c, Lower(deploy.repository), destroy).Fine?
    && (var (d, x) := (DeployGuard(c, Lower(deploy.repository), deploy).value, DestroyGuard(c, Lower(deploy.repository), destroy).value);
        d.repository == x.repository && d.pr == x.pr)
  }

  lemma FirstDeploy(c: ApiConfig, deploy: Request, destroy: Request, again: Request, t0: int, t1: int, t2: int)
    returns (events: seq<Event>)
    requires Presented(c, deploy, destroy, again, t0, t1, t2)
    ensures events == [Deploying(deploy, t0, t0)] && ValidRun(c, Initial(t0), events)
    ensures var s, payload := Run(c, Initial(t0), events), DeployGuard(c, Lower(deploy.repository), deploy).value;
            && s.now == t0 && |s.entries| == 1 && Admitted(c, s, deploy) <= 1
            && s.auth.nonces == map[NonceOf(deploy) := NonceRow(Fingerprint(c.auth, deploy), t0)]
            && s.demos == map[DeployKey(payload) := DeployedRow(map[], payload, c.auth.sha256(deploy.body), t0)]
  {
    var s := Initial(t0);
    Admits(c, s, deploy, t0);
    DeployDone(c, s, deploy, t0);
    events := AndThen(c, s, [], Deploying(deploy, t0, t0));
    assert Purge(s.auth.nonces, t0, c.auth.retention) == map[];
  }

  lemma ThenDestroy(c: ApiConfig, deploy: Request, destroy: Request, again: Request, t0: int, t1: int, t2: int)
    returns (events: seq<Event>)
    requires Presented(c, deploy, destroy, again, t0, t1, t2)
    ensures events == [Deploying(deploy, t0, t0), Destroying(destroy, t1, t1)] && ValidRun(c, Initial(t0), events)
    ensures var s, k := Run(c, Initial(t0), events), DeployKey(DeployGuard(c, Lower(deploy.repository), deploy).value);
            && s.now == t1 && |s.entries| == 2 && Admitted(c, s, deploy) <= 2
            && (NonceOf(deploy) in s.auth.nonces ==> s.auth.nonces[NonceOf(deploy)] == NonceRow(Fingerprint(c.auth, deploy), t0))
            && (t1 <= t0 + c.auth.retention ==> NonceOf(deploy) in s.auth.nonces)
            && k in s.demos && !s.demos[k].desiredPresent && s.demos[k].deliveryId == destroy.nonce
  {
    events := FirstDeploy(c, deploy, destroy, again, t0, t1, t2);
    var s := Run(c, Initial(t0), events);
    Admits(c, s, destroy, t1);
    DestroyDone(c, s, destroy, t1);
    events := AndThen(c, Initial(t0), events, Destroying(destroy, t1, t1));
  }

  /** The deploy, presented again after the destroy, is accepted and takes effect: the destroyed demo is
      wanted again, with a new lifetime. Its nonce row may be there all the while. */
  lemma DestroyedDemoReturns(c: ApiConfig, deploy: Request, destroy: Request, again: Request, t0: int, t1: int, t2: int)
    returns (events: seq<Event>)
    requires Presented(c, deploy, destroy, again, t0, t1, t2)
    ensures events == [Deploying(deploy, t0, t0), Destroying(destroy, t1, t1)]
    ensures ValidRun(c, Initial(t0), events + [Deploying(again, t2, t2)])
    ensures var s := Run(c, Initial(t0), events);
            var (s', reply) := Do(c, s, Deploying(again, t2, t2));
            var k := DeployKey(DeployGuard(c, Lower(deploy.repository), deploy).value);
            && k in s.demos && !s.demos[k].desiredPresent
            && (t2 <= t0 + c.auth.retention ==>
                  Found(c, s, NonceOf(again), NonceRow(Fingerprint(c.auth, deploy), t0), t2))
            && k in s'.demos && s'.demos[k].desiredPresent && s'.demos[k].expiresAt == t2 + LIFETIME
            && reply == Some(Api.Accepted(s'.demos[k]))
  {
    events := ThenDestroy(c, deploy, destroy, again, t0, t1, t2);
    var s := Run(c, Initial(t0), events);
    Admits(c, s, again, t2);
    DeployDone(c, s, again, t2);
    var more := AndThen(c, Initial(t0), events, Deploying(again, t2, t2));
  }

  /** The request's credential exists and its signature is right. */
  predicate Signed(c: ApiConfig, r: Request) {
    && Lower(r.repository) in c.auth.credentials && c.auth.credentials[Lower(r.repository)] != "" && r.timestamp.Some?
    && c.auth.hmac(c.auth.credentials[Lower(r.repository)], Canonical(r)) == RemovePrefix(r.signature, "sha256=")
  }

  /** With signatures that live five minutes, and the identical deploy: deployed at 0, destroyed at 10,
      wanted again at 20. */
  lemma ReturnsWithinSeconds(c: ApiConfig, deploy: Request, destroy: Request)
    requires c.auth.maxAge == 300 && c.auth.retention == 600 && c.auth.rateLimit >= 3
    requires WellFormed(deploy) && WellFormed(destroy) && deploy.nonce != destroy.nonce
    requires deploy.nonce != "" && destroy.nonce != "" && Lower(deploy.repository) == Lower(destroy.repository)
    requires Signed(c, deploy) && Signed(c, destroy) && deploy.timestamp == Some(0) && destroy.timestamp == Some(10)
    requires DeployGuard(c, Lower(deploy.repository), deploy).Fine? && DestroyGuard(c, Lower(deploy.repository), destroy).Fine?
    requires DeployGuard(c, Lower(deploy.repository), deploy).value.pr == DestroyGuard(c, Lower(deploy.repository), destroy).value.pr
    ensures Presented(c, deploy, destroy, deploy, 0, 10, 20)
  {
  }
}
