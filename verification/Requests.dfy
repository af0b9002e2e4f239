/** What a request says: the accepted bodies field by field, and the answer of every guard
    (src/demo_controller/models.py, api.py). */
module Requests {
  import opened Text
  import opened Models
  import opened Store
  import opened Auth
  import opened Api

  type Fields = map<string, JsonValue>

  ghost predicate DeliveryIdOk(id: string) {
    8 <= |id| <= 128 && forall i | 0 <= i < |id| ::
      'a' <= id[i] <= 'z' || 'A' <= id[i] <= 'Z' || '0' <= id[i] <= '9' || id[i] == '_' || id[i] == '.' || id[i] == ':' || id[i] == '-'
  }

  ghost predicate CommitOk(sha: string) {
    |sha| == 40 && forall i | 0 <= i < |sha| :: '0' <= sha[i] <= '9' || 'a' <= sha[i] <= 'f'
  }

  /** The fields that both requests have. */
  ghost predicate CommonOk(f: Fields)
    requires {"repository", "pr", "delivery_id"} <= f.Keys
  {
    && f["repository"].text.Some? && ValidRepository(Lower(f["repository"].text.value))
    && f["pr"].whole.Some? && 1 <= f["pr"].whole.value <= 2_147_483_647
    && f["delivery_id"].text.Some? && DeliveryIdOk(f["delivery_id"].text.value)
  }

  ghost predicate DeployOk(f: Fields) {
    && f.Keys == {"repository", "pr", "commit_sha", "image", "delivery_id"}
    && CommonOk(f)
    && f["commit_sha"].text.Some? && CommitOk(Lower(f["commit_sha"].text.value))
    && f["image"].text.Some? && ImageNamesRepository(f["image"].text.value, Lower(f["repository"].text.value))
  }

  ghost predicate DestroyOk(f: Fields) {
    f.Keys == {"repository", "pr", "delivery_id"} && CommonOk(f)
  }

  lemma IdOk(id: string)
    ensures ValidDeliveryId(id) <==> DeliveryIdOk(id)
  {
    assert forall i | 0 <= i < |id| :: id[i] in id;
  }

  lemma ShaOk(sha: string)
    ensures ValidSha(sha) <==> CommitOk(sha)
  {
    assert forall i | 0 <= i < |sha| :: sha[i] in sha;
  }

  /** A body is a deploy request exactly if it has these five fields and each passes its validator; the
      request has the body's number, image and delivery ID, and its repository and commit in small letters. */
  lemma DeployModelIff(json: Option<Fields>)
    ensures DeployModel(json).Some? <==> json.Some? && DeployOk(json.value)
    ensures DeployModel(json).Some? ==>
              var (f, request) := (json.value, DeployModel(json).value);
              && request.repository == Lower(f["repository"].text.value)
              && request.pr == f["pr"].whole.value
              && request.commitSha == Lower(f["commit_sha"].text.value)
              && request.image == f["image"].text.value
              && request.deliveryId == f["delivery_id"].text.value
  {
    if json.Some? && json.value.Keys == DEPLOY_FIELDS {
      var f := json.value;
      if f["delivery_id"].text.Some? { IdOk(f["delivery_id"].text.value); }
      if f["commit_sha"].text.Some? { ShaOk(Lower(f["commit_sha"].text.value)); }
    }
  }

  lemma DestroyModelIff(json: Option<Fields>)
    ensures DestroyModel(json).Some? <==> json.Some? && DestroyOk(json.value)
    ensures DestroyModel(json).Some? ==>
              var (f, request) := (json.value, DestroyModel(json).value);
              && request.repository == Lower(f["repository"].text.value)
              && request.pr == f["pr"].whole.value
              && request.deliveryId == f["delivery_id"].text.value
  {
    if json.Some? && json.value.Keys == DESTROY_FIELDS {
      var f := json.value;
      if f["delivery_id"].text.Some? { IdOk(f["delivery_id"].text.value); }
    }
  }

  // ---------------------------------------------------------------- the guards

  /** The answer of the deploy handler between authentication and the store: the first guard that fails
      decides, and a request that passes all of them is admitted. */
  lemma DeployGuardIff(c: ApiConfig, repository: string, r: Request)
    requires Parses(c)
    ensures var (json, answer) := (c.json(r.body), DeployGuard(c, repository, r));
            var parsed := json.Some? && DeployOk(json.value);
            var own := parsed && Lower(json.value["repository"].text.value) == repository;
            var registered := own && c.registry + "/" + repository + "@sha256:" <= Lower(json.value["image"].text.value);
            && (answer == Err(Unprocessable) <==> !parsed)
            && (answer == Err(WrongRepository) <==> parsed && !own)
            && (answer == Err(WrongRegistry) <==> own && !registered)
            && (answer == Err(NonceMismatch) <==> registered && json.value["delivery_id"].text.value != r.nonce)
            && (answer.Fine? <==> registered && json.value["delivery_id"].text.value == r.nonce)
            && (answer.Fine? ==> Some(answer.value) == DeployModel(json))
  {
    assert c.parseDeploy(r.body) == DeployModel(c.json(r.body));
    DeployModelIff(c.json(r.body));
  }

  lemma DestroyGuardIff(c: ApiConfig, repository: string, r: Request)
    requires Parses(c)
    ensures var (json, answer) := (c.json(r.body), DestroyGuard(c, repository, r));
            var parsed := json.Some? && DestroyOk(json.value);
            var own := parsed && Lower(json.value["repository"].text.value) == repository;
            && (answer == Err(Unprocessable) <==> !parsed)
            && (answer == Err(WrongRepository) <==> parsed && !own)
            && (answer == Err(NonceMismatch) <==> own && json.value["delivery_id"].text.value != r.nonce)
            && (answer.Fine? <==> own && json.value["delivery_id"].text.value == r.nonce)
            && (answer.Fine? ==> Some(answer.value) == DestroyModel(json))
  {
    assert c.parseDestroy(r.body) == DestroyModel(c.json(r.body));
    DestroyModelIff(c.json(r.body));
  }

  // ---------------------------------------------------------------- what an accepted request does

  /** The row that a body names. */
  function NamedKey(f: Fields): Key
    requires "repository" in f && f["repository"].text.Some? && "pr" in f && f["pr"].whole.Some? && f["pr"].whole.value >= 0
  {
    Key(Lower(f["repository"].text.value), f["pr"].whole.value)
  }

  /** The store refuses the delivery ID: the row carries it with the hash of another body. */
  predicate Reused(demos: Demos, k: Key, id: string, hash: string) {
    k in demos && demos[k].deliveryId == id && demos[k].requestHash != hash
  }

  predicate Repeated(demos: Demos, k: Key, id: string, hash: string) {
    k in demos && demos[k].deliveryId == id && demos[k].requestHash == hash
  }

  /** A deploy that passes its guards is accepted exactly unless its delivery ID was used for another
      body. It then touches the row of the repository and number in its body, and no other; unless it
      repeats that row's delivery, the row takes commit, image and delivery from the body. */
  lemma DeployDoes(c: ApiConfig, s: (AuthState, Demos), r: Request, now: int, storeNow: int)
    requires Parses(c) && Authenticate(c.auth, s.0, r, now).1.Authenticated?
    requires DeployGuard(c, Authenticate(c.auth, s.0, r, now).1.repository, r).Fine?
    ensures c.json(r.body).Some? && DeployOk(c.json(r.body).value)
    ensures var (f, hash) := (c.json(r.body).value, c.auth.sha256(r.body));
            var (after, reply) := DeployStep(c, s, r, now, storeNow);
            var k := NamedKey(f);
            && (reply == DeliveryReused <==> Reused(s.1, k, r.nonce, hash))
            && (reply.Accepted? <==> !Reused(s.1, k, r.nonce, hash))
            && (reply.Accepted? ==> k in after.1 && reply.row == after.1[k] && after.1 == s.1[k := reply.row])
            && (reply.Accepted? ==> reply.row.deliveryId == r.nonce && reply.row.requestHash == hash)
            && (Repeated(s.1, k, r.nonce, hash) ==> after.1 == s.1)
            && (reply.Accepted? && !Repeated(s.1, k, r.nonce, hash) ==>
                  && reply.row.image == Some(f["image"].text.value) && reply.row.commitSha == Some(Lower(f["commit_sha"].text.value))
                  && reply.row.expiresAt == storeNow + 259_200 && reply.row.updatedAt == storeNow)
            && (reply.Accepted? && k !in s.1 ==> reply.row.Id() == k && reply.row.createdAt == storeNow)
  {
    DeployGuardIff(c, Authenticate(c.auth, s.0, r, now).1.repository, r);
    DeployModelIff(c.json(r.body));
  }

  lemma DestroyDoes(c: ApiConfig, s: (AuthState, Demos), r: Request, now: int, storeNow: int)
    requires Parses(c) && Authenticate(c.auth, s.0, r, now).1.Authenticated?
    requires DestroyGuard(c, Authenticate(c.auth, s.0, r, now).1.repository, r).Fine?
    ensures c.json(r.body).Some? && DestroyOk(c.json(r.body).value)
    ensures var (f, hash) := (c.json(r.body).value, c.auth.sha256(r.body));
            var (after, reply) := DestroyStep(c, s, r, now, storeNow);
            var k := NamedKey(f);
            && (reply == DeliveryReused <==> Reused(s.1, k, r.nonce, hash))
            && (reply.Accepted? <==> !Reused(s.1, k, r.nonce, hash))
            && (reply.Accepted? ==> k in after.1 && reply.row == after.1[k] && after.1 == s.1[k := reply.row])
            && (reply.Accepted? ==> reply.row.deliveryId == r.nonce && reply.row.requestHash == hash)
            && (Repeated(s.1, k, r.nonce, hash) ==> after.1 == s.1)
            && (reply.Accepted? && k !in s.1 ==> reply.row.Id() == k && reply.row.createdAt == storeNow)
  {
    DestroyGuardIff(c, Authenticate(c.auth, s.0, r, now).1.repository, r);
    DestroyModelIff(c.json(r.body));
  }

  /** Any other request leaves the store as it was and is answered by the guard that failed. */
  lemma OthersLeaveStore(c: ApiConfig, s: (AuthState, Demos), r: Request, now: int, storeNow: int)
    ensures var (auth, outcome) := Authenticate(c.auth, s.0, r, now);
            && (!outcome.Authenticated? ==>
                  DeployStep(c, s, r, now, storeNow) == ((auth, s.1), Unauthenticated(outcome))
                  && DestroyStep(c, s, r, now, storeNow) == ((auth, s.1), Unauthenticated(outcome)))
            && (outcome.Authenticated? && DeployGuard(c, outcome.repository, r).Err? ==>
                  DeployStep(c, s, r, now, storeNow) == ((auth, s.1), DeployGuard(c, outcome.repository, r).error))
            && (outcome.Authenticated? && DestroyGuard(c, outcome.repository, r).Err? ==>
                  DestroyStep(c, s, r, now, storeNow) == ((auth, s.1), DestroyGuard(c, outcome.repository, r).error))
  {
  }
}
