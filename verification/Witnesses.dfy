/** Runs in which the control plane does what one would not expect of it. Each refutes a property
    whose exact condition is proved in module Guarantees. */
module Witnesses {
  import opened Text
  import opened Models
  import opened Store
  import opened Kubernetes
  import opened ControlPlane
  import opened Guarantees

  lemma FirstDestroy(p: Params, now: int, k: Key, id: string, hash: string)
    requires Addressable(k) && p.ofDestroy(hash)
    ensures var s' := DoDestroy(Initial(now), k, id, hash);
            && Enabled(p, Initial(now), Destroy(k, id, hash)) && Do(p, Initial(now), Destroy(k, id, hash)) == s'
            && s'.loop == Resting && s'.now == now
            && s'.demos == map[k := DestroyedRow(map[], k, id, hash, now)]
  {
  }

  lemma OnlyRow(demos: Demos, row: DemoRecord)
    requires demos == map[row.Id() := row] && Listed(row.state)
    ensures IsSelection([row], demos, (row: DemoRecord) => Listed(row.state))
  {
    assert row in [row];
  }

  lemma DeletionBegins(p: Params, s: Sys, row: DemoRecord)
    requires s.loop == Between([row]) && s.demos == map[row.Id() := row] && !row.desiredPresent
    ensures Enabled(p, s, BeginRecord)
    ensures var s' := DoBeginRecord(s);
            s'.loop == Deletion(row, 0, []) && s'.now == s.now
            && s'.demos.Keys == s.demos.Keys && s'.demos[row.Id()].deliveryId == row.deliveryId
  {
  }

  /** A first destroy and the start of its deletion. */
  lemma StartDeletion(p: Params, now: int, k: Key, id: string, hash: string) returns (steps: seq<Step>)
    requires Addressable(k) && p.ofDestroy(hash)
    ensures ValidRun(p, Initial(now), steps) && |steps| == 3 && steps[0] == Destroy(k, id, hash)
    ensures var s, row := Run(p, Initial(now), steps), DestroyedRow(map[], k, id, hash, now);
            s.loop == Deletion(row, 0, []) && s.now == now && s.demos.Keys == {k} && s.demos[k].deliveryId == id
  {
    var row := DestroyedRow(map[], k, id, hash, now);
    FirstDestroy(p, now, k, id, hash);
    steps := Then(p, now, [], Destroy(k, id, hash));
    OnlyRow(Run(p, Initial(now), steps).demos, row);
    steps := Then(p, now, steps, BeginPass([row]));
    DeletionBegins(p, Run(p, Initial(now), steps), row);
    steps := Then(p, now, steps, BeginRecord);
  }

  /** The first `n` calls of an operation succeed. */
  lemma {:induction false} RunCalls(p: Params, now: int, start: seq<Step>, n: nat) returns (steps: seq<Step>)
    requires ValidRun(p, Initial(now), start)
    requires var s := Run(p, Initial(now), start);
             (s.loop.Deletion? || s.loop.Application?) && CallsDone(s.loop) == 0 && n <= |Calls(p, s.loop)|
    ensures |steps| == |start| + n && start <= steps && ValidRun(p, Initial(now), steps)
    ensures Run(p, Initial(now), steps) == AfterCalls(p, Run(p, Initial(now), start), n)
  {
    var s := Run(p, Initial(now), start);
    if n == 0 {
      steps := start;
    } else {
      steps := RunCalls(p, now, start, n - 1);
      CallStep(p, s, n - 1);
      steps := Then(p, now, steps, CallSucceeds);
    }
  }

  lemma ArrivalIsLive(p: Params, s: Sys, request: DeployRequest, hash: string)
    requires Awaiting(s.loop) && Admissible(p, request) && !p.ofDestroy(hash)
    requires DeployKey(request) in s.demos && s.demos[DeployKey(request)].deliveryId != request.deliveryId
    ensures Enabled(p, s, Deploy(request, hash)) && Judge(s.demos, DeployKey(request), request.deliveryId, hash).Changed?
    ensures var s', k := Do(p, s, Deploy(request, hash)), DeployKey(request);
            && s' == s.(demos := s'.demos, log := s'.log)
            && k in s'.demos && s'.demos[k].deliveryId == request.deliveryId && Live(s'.demos[k], s'.now)
            && s'.demos[k].image == Some(request.image)
  {
  }

  lemma DeletionRemoves(p: Params, s: Sys)
    requires s.loop.Deletion? && s.loop.done == 4
    ensures Enabled(p, s, FinishDeletion) && s.loop.record.Id() !in Do(p, s, FinishDeletion).demos
  {
  }

  lemma ArriveAndLose(p: Params, now: int, start: seq<Step>, row: DemoRecord, request: DeployRequest, hash: string)
    returns (steps: seq<Step>)
    requires ValidRun(p, Initial(now), start) && row.Id() == DeployKey(request)
    requires var s := Run(p, Initial(now), start);
             s.loop == Deletion(row, 4, []) && s.now == now
             && row.Id() in s.demos && s.demos[row.Id()].deliveryId != request.deliveryId
    requires Admissible(p, request) && !p.ofDestroy(hash)
    ensures steps == start + [Deploy(request, hash)] && ValidRun(p, Initial(now), steps)
    ensures Loses(p, Run(p, Initial(now), start), Run(p, Initial(now), steps), request, hash)
  {
    var s := Run(p, Initial(now), start);
    ArrivalIsLive(p, s, request, hash);
    steps := Then(p, now, start, Deploy(request, hash));
    DeletionRemoves(p, Run(p, Initial(now), steps));
  }

  /** The deploy was accepted and its demo is live, but the next step removes the row. */
  ghost predicate Loses(p: Params, before: Sys, s: Sys, request: DeployRequest, hash: string) {
    var k := DeployKey(request);
    && Judge(before.demos, k, request.deliveryId, hash).Changed?
    && k in s.demos && s.demos[k].deliveryId == request.deliveryId && Live(s.demos[k], s.now)
    && Enabled(p, s, FinishDeletion) && k !in Do(p, s, FinishDeletion).demos
  }

  /** It does happen: a destroyed demo is redeployed while its deletion is under way, and the
      accepted deployment vanishes with the row. */
  lemma DeploymentCanBeLost(p: Params, now: int, request: DeployRequest, hash: string, id: string, destroyHash: string)
    returns (before: seq<Step>)
    requires Admissible(p, request) && !p.ofDestroy(hash) && p.ofDestroy(destroyHash) && id != request.deliveryId
    ensures |before| == 7 && before[0] == Destroy(DeployKey(request), id, destroyHash)
    ensures var steps := before + [Deploy(request, hash)];
            ValidRun(p, Initial(now), before) && ValidRun(p, Initial(now), steps)
            && Loses(p, Run(p, Initial(now), before), Run(p, Initial(now), steps), request, hash)
  {
    var k := DeployKey(request);
    var row := DestroyedRow(map[], k, id, destroyHash, now);
    before := StartDeletion(p, now, k, id, destroyHash);
    before := RunCalls(p, now, before, 4);
    var steps := ArriveAndLose(p, now, before, row, request, hash);
  }

  lemma Then(p: Params, now: int, steps: seq<Step>, step: Step) returns (more: seq<Step>)
    requires ValidRun(p, Initial(now), steps) && Enabled(p, Run(p, Initial(now), steps), step)
    ensures more == steps + [step] && ValidRun(p, Initial(now), more)
    ensures Run(p, Initial(now), more) == Do(p, Run(p, Initial(now), steps), step)
  {
    more := steps + [step];
    Extend(p, Initial(now), steps, step);
  }

  // ---------------------------------------------------------------- a deployed demo

  /** A configuration without a namespace. */
  predicate Plain(project: ProjectConfig) {
    ValidConfig(project) && project.imageNamespace == None
  }

  lemma FirstDeploy(p: Params, now: int, request: DeployRequest, hash: string)
    requires Admissible(p, request) && !p.ofDestroy(hash)
    ensures Enabled(p, Initial(now), Deploy(request, hash))
    ensures Do(p, Initial(now), Deploy(request, hash)).(log := map[])
            == Initial(now).(demos := map[DeployKey(request) := DeployedRow(map[], request, hash, now)])
  {
  }

  /** Taking up the only record, unwanted or not. */
  lemma OneRecordPass(p: Params, now: int, start: seq<Step>, row: DemoRecord) returns (steps: seq<Step>)
    requires ValidRun(p, Initial(now), start) && Listed(row.state)
    requires var s := Run(p, Initial(now), start); s.loop == Resting && s.demos == map[row.Id() := row]
    ensures steps == start + [BeginPass([row]), BeginRecord] && ValidRun(p, Initial(now), steps)
    ensures var s, s' := Run(p, Initial(now), start), Run(p, Initial(now), steps);
            s' == DoBeginRecord(s.(loop := Between([row]), seen := s.log))
  {
    OnlyRow(Run(p, Initial(now), start).demos, row);
    steps := Then(p, now, start, BeginPass([row]));
    steps := Then(p, now, steps, BeginRecord);
  }

  lemma TakesUp(s: Sys, row: DemoRecord)
    requires s.loop == Resting && s.demos == map[row.Id() := row] && row.desiredPresent && row.expiresAt > s.now
    ensures DoBeginRecord(s.(loop := Between([row]), seen := s.log))
            == s.(seen := s.log, loop := Lookup(row, []),
                  demos := map[row.Id() := UpdatedRow(row, Reconciling, "loading configuration", None, None, s.now)])
  {
    var taken := UpdatedRow(row, Reconciling, "loading configuration", None, None, s.now);
    assert s.demos[row.Id() := taken] == map[row.Id() := taken] && [row][1..] == [];
  }

  lemma Answered(p: Params, s: Sys, row: DemoRecord, project: ProjectConfig)
    requires s.loop == Lookup(row, []) && Plain(project)
    ensures Enabled(p, s, VaultAnswers(project, 1))
    ensures Do(p, s, VaultAnswers(project, 1)) == s.(loop := Application(row, project, 1, 0, []))
  {
  }

  /** A fresh deploy up to the first call of its apply. */
  lemma StartApplication(p: Params, now: int, request: DeployRequest, hash: string, project: ProjectConfig)
    returns (steps: seq<Step>)
    requires Admissible(p, request) && !p.ofDestroy(hash) && Plain(project)
    ensures ValidRun(p, Initial(now), steps) && |steps| == 4 && steps[0] == Deploy(request, hash)
    ensures var s, row := Run(p, Initial(now), steps), DeployedRow(map[], request, hash, now);
            s.loop == Application(row, project, 1, 0, []) && s.now == now
            && s.demos == map[row.Id() := UpdatedRow(row, Reconciling, "loading configuration", None, None, now)]
  {
    var row := DeployedRow(map[], request, hash, now);
    FirstDeploy(p, now, request, hash);
    steps := Then(p, now, [], Deploy(request, hash));
    TakesUp(Run(p, Initial(now), steps), row);
    steps := OneRecordPass(p, now, steps, row);
    Answered(p, Run(p, Initial(now), steps), row, project);
    steps := Then(p, now, steps, VaultAnswers(project, 1));
  }

  lemma ApplyAll(p: Params, now: int, start: seq<Step>, row: DemoRecord, project: ProjectConfig) returns (steps: seq<Step>)
    requires ValidRun(p, Initial(now), start) && Run(p, Initial(now), start).loop == Application(row, project, 1, 0, [])
    ensures |steps| == |start| + 4 && start <= steps && ValidRun(p, Initial(now), steps)
    ensures var s, s' := Run(p, Initial(now), start), Run(p, Initial(now), steps);
            s' == s.(cluster := s'.cluster, loop := s'.loop) && Applied(p, s', row, project)
  {
    FourCallsOf(p, Run(p, Initial(now), start).loop);
    steps := RunCalls(p, now, start, 4);
    FourCallsOf(p, Run(p, Initial(now), steps).loop);
  }

  /** All calls of the apply are made. */
  predicate Applied(p: Params, s: Sys, row: DemoRecord, project: ProjectConfig) {
    s.loop == Application(row, project, 1, 4, []) && |Calls(p, s.loop)| == 4
  }

  lemma FourCallsOf(p: Params, loop: Loop)
    requires loop.Application?
    ensures |Calls(p, loop)| == 4
  {
    var name := p.name(loop.record.Id());
    RenderWellRendered(p.place, name, loop.record, loop.project, loop.version);
    ApplyTargets(Render(p.place, name, loop.record, loop.project, loop.version), name);
  }

  lemma Finished(p: Params, s: Sys, row: DemoRecord, project: ProjectConfig)
    requires Applied(p, s, row, project) && row.Id() in s.demos
    ensures Enabled(p, s, FinishApplication(true))
    ensures Do(p, s, FinishApplication(true))
            == s.(loop := Between([]),
                  demos := s.demos[row.Id() := UpdatedRow(s.demos[row.Id()], Ready, "deployment is ready", Some(1), Some(project.port), s.now)])
  {
  }

  /** A record turns ready on an image that its row no longer asks for: the next deploy arrived while
      the first was applied. */
  lemma ReadyOnOldImage(p: Params, now: int, first: DeployRequest, firstHash: string, next: DeployRequest, nextHash: string,
                        project: ProjectConfig)
    returns (steps: seq<Step>)
    requires Admissible(p, first) && !p.ofDestroy(firstHash) && Admissible(p, next) && !p.ofDestroy(nextHash) && Plain(project)
    requires DeployKey(first) == DeployKey(next) && first.deliveryId != next.deliveryId && first.image != next.image
    ensures ValidRun(p, Initial(now), steps) && |steps| == 10
    ensures var s, k := Run(p, Initial(now), steps), DeployKey(next);
            && k in s.demos && s.demos[k].state == Ready && s.demos[k].image == Some(next.image)
            && At(s.cluster, ResourceId(Deployment, p.name(k))).Some?
            && s.cluster[ResourceId(Deployment, p.name(k))].DeploymentOf?
            && s.cluster[ResourceId(Deployment, p.name(k))].image == Some(first.image)
  {
    var row := DeployedRow(map[], first, firstHash, now);
    steps := StartApplication(p, now, first, firstHash, project);
    steps := ApplyAll(p, now, steps, row, project);
    ArrivalIsLive(p, Run(p, Initial(now), steps), next, nextHash);
    steps := Then(p, now, steps, Deploy(next, nextHash));
    var s := Run(p, Initial(now), steps);
    OldImageRuns(p, s, row, project);
    Finished(p, s, row, project);
    steps := Then(p, now, steps, FinishApplication(true));
  }

  lemma OldImageRuns(p: Params, s: Sys, row: DemoRecord, project: ProjectConfig)
    requires Reachable(p, s) && Applied(p, s, row, project)
    ensures var id := ResourceId(Deployment, p.name(row.Id()));
            id in s.cluster && s.cluster[id].DeploymentOf? && s.cluster[id].image == row.image
  {
    CompletedApplyIsExact(p, s, Deployment);
  }

  lemma Expires(p: Params, now: int, start: seq<Step>, row: DemoRecord, ready: DemoRecord, project: ProjectConfig)
    returns (steps: seq<Step>)
    requires ValidRun(p, Initial(now), start)
    requires var s := Run(p, Initial(now), start);
             && Applied(p, s, row, project) && s.now == now
             && row.Id() in s.demos && s.demos == map[row.Id() := s.demos[row.Id()]]
             && ready == UpdatedRow(s.demos[row.Id()], Ready, "deployment is ready", Some(1), Some(project.port), now)
             && ready.Id() == row.Id()
    ensures steps == start + [FinishApplication(true), EndPass, Tick(now + LIFETIME)] && ValidRun(p, Initial(now), steps)
    ensures var s := Run(p, Initial(now), steps);
            s.loop == Resting && s.now == now + LIFETIME && s.demos == map[row.Id() := ready]
  {
    steps := Finishes(p, now, start, row, ready, project);
    steps := Then(p, now, steps, Tick(now + LIFETIME));
  }

  lemma TakesUpExpired(p: Params, s: Sys, row: DemoRecord)
    requires s.loop == Resting && s.demos == map[row.Id() := row] && row.expiresAt <= s.now && row.desiredPresent && row.port.Some?
    ensures var s' := DoBeginRecord(s.(loop := Between([row]), seen := s.log));
            && s'.loop == Deletion(row, 0, []) && s'.now == s.now
            && s'.demos.Keys == {row.Id()} && s'.demos[row.Id()].desiredPresent && s'.demos[row.Id()].port.Some?
            && s'.demos[row.Id()].expiresAt == row.expiresAt
  {
    assert [row][1..] == [];
  }

  lemma DeletionFails(p: Params, s: Sys, row: DemoRecord)
    requires s.loop == Deletion(row, 0, []) && row.Id() in s.demos
    requires s.demos[row.Id()].desiredPresent && s.demos[row.Id()].port.Some?
    ensures Enabled(p, s, CallFails(false))
    ensures var s' := Do(p, s, CallFails(false));
            && Routed(s', row.Id()) && s'.loop == Between([]) && s'.now == s.now
            && s'.demos[row.Id()].expiresAt == s.demos[row.Id()].expiresAt
  {
    FailureRoute(s, row, "Kubernetes deletion failed", []);
  }

  /** An expired demo is routed: it was deployed and ready, its three days passed, and its deletion failed. */
  lemma ExpiredAndRouted(p: Params, now: int, request: DeployRequest, hash: string, project: ProjectConfig)
    returns (steps: seq<Step>)
    requires Admissible(p, request) && !p.ofDestroy(hash) && Plain(project)
    ensures ValidRun(p, Initial(now), steps) && |steps| == 14
    ensures var s, k := Run(p, Initial(now), steps), DeployKey(request);
            Routed(s, k) && s.demos[k].expiresAt <= s.now && s.loop == Between([])
  {
    var row := DeployedRow(map[], request, hash, now);
    steps := StartApplication(p, now, request, hash, project);
    var taken := Run(p, Initial(now), steps).demos[row.Id()];
    steps := ApplyAll(p, now, steps, row, project);
    var ready := UpdatedRow(taken, Ready, "deployment is ready", Some(1), Some(project.port), now);
    steps := Expires(p, now, steps, row, ready, project);
    TakesUpExpired(p, Run(p, Initial(now), steps), ready);
    steps := OneRecordPass(p, now, steps, ready);
    DeletionFails(p, Run(p, Initial(now), steps), ready);
    steps := Then(p, now, steps, CallFails(false));
  }

  /** An expired demo is routed before any deletion was tried: no pass has begun since. */
  lemma ExpiredBeforeThePass(p: Params, now: int, request: DeployRequest, hash: string, project: ProjectConfig)
    returns (steps: seq<Step>)
    requires Admissible(p, request) && !p.ofDestroy(hash) && Plain(project)
    ensures ValidRun(p, Initial(now), steps) && |steps| == 11
    ensures var s, k := Run(p, Initial(now), steps), DeployKey(request);
            Routed(s, k) && s.demos[k].expiresAt <= s.now && s.loop == Resting && s.demos[k].state == Ready
  {
    var row := DeployedRow(map[], request, hash, now);
    steps := StartApplication(p, now, request, hash, project);
    var taken := Run(p, Initial(now), steps).demos[row.Id()];
    steps := ApplyAll(p, now, steps, row, project);
    steps := Expires(p, now, steps, row, UpdatedRow(taken, Ready, "deployment is ready", Some(1), Some(project.port), now), project);
  }

  // ---------------------------------------------------------------- the port of the route

  /** The ports of a routed demo and of its Service can differ: the next apply failed after its Service
      had landed. */
  lemma PortsDiffer(p: Params, now: int, request: DeployRequest, hash: string, first: ProjectConfig, next: ProjectConfig)
    returns (steps: seq<Step>)
    requires Admissible(p, request) && !p.ofDestroy(hash) && Plain(first) && Plain(next)
    requires next.environment == map[] && next.secrets == map[] && first.port != next.port
    ensures ValidRun(p, Initial(now), steps) && |steps| == 15
    ensures var s, k := Run(p, Initial(now), steps), DeployKey(request);
            && Routed(s, k) && s.demos[k].port == Some(first.port)
            && At(s.cluster, ResourceId(Service, p.name(k))).Some?
            && s.cluster[ResourceId(Service, p.name(k))].ServiceOf?
            && s.cluster[ResourceId(Service, p.name(k))].port == next.port
  {
    var row := DeployedRow(map[], request, hash, now);
    steps := StartApplication(p, now, request, hash, first);
    var taken := Run(p, Initial(now), steps).demos[row.Id()];
    steps := ApplyAll(p, now, steps, row, first);
    var ready := UpdatedRow(taken, Ready, "deployment is ready", Some(1), Some(first.port), now);
    steps := Finishes(p, now, steps, row, ready, first);
    TakesUp(Run(p, Initial(now), steps), ready);
    steps := OneRecordPass(p, now, steps, ready);
    Answered(p, Run(p, Initial(now), steps), ready, next);
    steps := Then(p, now, steps, VaultAnswers(next, 1));
    ServiceLandsFirst(p, Run(p, Initial(now), steps), ready, next);
    steps := Then(p, now, steps, CallSucceeds);
    ApplicationFails(p, Run(p, Initial(now), steps), ready, next);
    steps := Then(p, now, steps, CallFails(false));
  }

  lemma Finishes(p: Params, now: int, start: seq<Step>, row: DemoRecord, ready: DemoRecord, project: ProjectConfig)
    returns (steps: seq<Step>)
    requires ValidRun(p, Initial(now), start)
    requires var s := Run(p, Initial(now), start);
             && Applied(p, s, row, project) && s.now == now
             && row.Id() in s.demos && s.demos == map[row.Id() := s.demos[row.Id()]]
             && ready == UpdatedRow(s.demos[row.Id()], Ready, "deployment is ready", Some(1), Some(project.port), now)
             && ready.Id() == row.Id()
    ensures steps == start + [FinishApplication(true), EndPass] && ValidRun(p, Initial(now), steps)
    ensures var s := Run(p, Initial(now), steps); s.loop == Resting && s.now == now && s.demos == map[row.Id() := ready]
  {
    Finished(p, Run(p, Initial(now), start), row, project);
    steps := Then(p, now, start, FinishApplication(true));
    steps := Then(p, now, steps, EndPass);
  }

  lemma ServiceLandsFirst(p: Params, s: Sys, row: DemoRecord, project: ProjectConfig)
    requires s.loop == Application(row, project, 1, 0, []) && project.environment == map[] && project.secrets == map[]
    ensures Enabled(p, s, CallSucceeds)
    ensures var name := p.name(row.Id());
            Do(p, s, CallSucceeds) == s.(loop := Application(row, project, 1, 1, []),
                                         cluster := s.cluster[ResourceId(Service, name) := ServiceOf(Meta(name, p.place.namespace, p.place.owner), name, project.port)])
  {
    var r := Render(p.place, p.name(row.Id()), row, project, 1);
    assert Calls(p, s.loop)[0] == Put(r.All()[0]);
    CallIs(p, s);
  }

  lemma ApplicationFails(p: Params, s: Sys, row: DemoRecord, project: ProjectConfig)
    requires s.loop == Application(row, project, 1, 1, []) && row.Id() in s.demos
    requires s.demos[row.Id()].desiredPresent && s.demos[row.Id()].port.Some?
    ensures Enabled(p, s, CallFails(false))
    ensures var s', k := Do(p, s, CallFails(false)), row.Id();
            s'.cluster == s.cluster && Routed(s', k) && s'.demos[k].port == s.demos[k].port
  {
    FourCallsOf(p, s.loop);
    FailureRoute(s, row, "Kubernetes reconciliation failed", []);
  }
}
