/** The handlers and the state machine: what an accepted request does to the store is a step of the
    machine, and every other request leaves the store alone. */
module Interface {
  import opened Text
  import opened Models
  import opened Store
  import opened Auth
  import Api
  import ControlPlane

  /** The machine with this registry whose request hashes are those of the handlers' bodies. */
  ghost predicate Corresponds(c: Api.ApiConfig, p: ControlPlane.Params) {
    && Api.Parses(c) && Api.Injective(c.auth.sha256) && p.registry == c.registry
    && forall hash :: p.ofDestroy(hash) <==> Api.OfDestroy(c, hash)
  }

  lemma ParsedDeployIsEnabled(c: Api.ApiConfig, p: ControlPlane.Params, s: ControlPlane.Sys, repository: string, r: Request)
    requires Corresponds(c, p) && ControlPlane.Awaiting(s.loop) && Api.DeployGuard(c, repository, r).Fine?
    ensures ControlPlane.Enabled(p, s, ControlPlane.Deploy(Api.DeployGuard(c, repository, r).value, c.auth.sha256(r.body)))
  {
    Api.HashTellsKind(c, r.body);
    assert c.parseDeploy(r.body) == DeployModel(c.json(r.body));
    ModelsValidate(c.json(r.body));
  }

  lemma ParsedDestroyIsEnabled(c: Api.ApiConfig, p: ControlPlane.Params, s: ControlPlane.Sys, repository: string, r: Request)
    requires Corresponds(c, p) && ControlPlane.Awaiting(s.loop) && Api.DestroyGuard(c, repository, r).Fine?
    ensures var payload := Api.DestroyGuard(c, repository, r).value;
            ControlPlane.Enabled(p, s, ControlPlane.Destroy(Key(payload.repository, payload.pr), payload.deliveryId, c.auth.sha256(r.body)))
  {
    Api.HashTellsKind(c, r.body);
    assert c.parseDestroy(r.body) == DestroyModel(c.json(r.body));
    ModelsValidate(c.json(r.body));
  }

  /** What the handler does to the store, as a transaction. */
  lemma DeployTransaction(c: Api.ApiConfig, demos: Demos, auth: AuthState, r: Request, at: int, storeAt: int)
    ensures var (after, reply) := Api.DeployStep(c, (auth, demos), r, at, storeAt);
            if reply.Accepted? then
              && Api.DeployGuard(c, Lower(r.repository), r).Fine?
              && var request := Api.DeployGuard(c, Lower(r.repository), r).value;
                 !Judge(demos, DeployKey(request), request.deliveryId, c.auth.sha256(r.body)).Conflict?
                 && after.1 == UpsertDeploy(demos, request, c.auth.sha256(r.body), storeAt)
            else
              after.1 == demos
  {
  }

  lemma DestroyTransaction(c: Api.ApiConfig, demos: Demos, auth: AuthState, r: Request, at: int, storeAt: int)
    ensures var (after, reply) := Api.DestroyStep(c, (auth, demos), r, at, storeAt);
            if reply.Accepted? then
              && Api.DestroyGuard(c, Lower(r.repository), r).Fine?
              && var request := Api.DestroyGuard(c, Lower(r.repository), r).value;
                 !Judge(demos, Key(request.repository, request.pr), request.deliveryId, c.auth.sha256(r.body)).Conflict?
                 && after.1 == RequestDestroy(demos, Key(request.repository, request.pr), request.deliveryId, c.auth.sha256(r.body), storeAt)
            else
              after.1 == demos
  {
  }

  /** An accepted deploy is the machine's deploy step; any other answer leaves the store alone. */
  lemma DeployIsStep(c: Api.ApiConfig, p: ControlPlane.Params, s: ControlPlane.Sys, auth: AuthState, r: Request, at: int)
    returns (step: ControlPlane.Step)
    requires Corresponds(c, p) && ControlPlane.Awaiting(s.loop)
    ensures var (after, reply) := Api.DeployStep(c, (auth, s.demos), r, at, s.now);
            if reply.Accepted? then
              step.Deploy? && ControlPlane.Enabled(p, s, step) && ControlPlane.Do(p, s, step).demos == after.1
            else
              after.1 == s.demos
  {
    step := ControlPlane.EndPass;
    DeployTransaction(c, s.demos, auth, r, at, s.now);
    if Api.DeployStep(c, (auth, s.demos), r, at, s.now).1.Accepted? {
      ParsedDeployIsEnabled(c, p, s, Lower(r.repository), r);
      step := ControlPlane.Deploy(Api.DeployGuard(c, Lower(r.repository), r).value, c.auth.sha256(r.body));
    }
  }

  /** An accepted destroy is the machine's destroy step; any other answer leaves the store alone. */
  lemma DestroyIsStep(c: Api.ApiConfig, p: ControlPlane.Params, s: ControlPlane.Sys, auth: AuthState, r: Request, at: int)
    returns (step: ControlPlane.Step)
    requires Corresponds(c, p) && ControlPlane.Awaiting(s.loop)
    ensures var (after, reply) := Api.DestroyStep(c, (auth, s.demos), r, at, s.now);
            if reply.Accepted? then
              step.Destroy? && ControlPlane.Enabled(p, s, step) && ControlPlane.Do(p, s, step).demos == after.1
            else
              after.1 == s.demos
  {
    step := ControlPlane.EndPass;
    DestroyTransaction(c, s.demos, auth, r, at, s.now);
    if Api.DestroyStep(c, (auth, s.demos), r, at, s.now).1.Accepted? {
      ParsedDestroyIsEnabled(c, p, s, Lower(r.repository), r);
      var payload := Api.DestroyGuard(c, Lower(r.repository), r).value;
      step := ControlPlane.Destroy(Key(payload.repository, payload.pr), payload.deliveryId, c.auth.sha256(r.body));
    }
  }

  /** Such a machine exists for every configuration of the handlers. */
  ghost function MachineOf(c: Api.ApiConfig, names: ControlPlane.Params): (p: ControlPlane.Params)
    requires Api.Parses(c) && Api.Injective(c.auth.sha256)
    ensures Corresponds(c, p) && p.name == names.name && p.place == names.place
  {
    names.(registry := c.registry, ofDestroy := (hash: string) => Api.OfDestroy(c, hash))
  }
}
