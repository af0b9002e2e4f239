/** What operators may rely on, over all runs: no orphaned resources, routes kept and cut, deliveries
    honoured, and exactly when the stale snapshot loses one. */
module Guarantees {
  import opened Text
  import opened Models
  import opened Store
  import opened Kubernetes
  import opened ControlPlane
  import opened Safety

  /** A state some run of the controller ends in. */
  ghost predicate Reachable(p: Params, s: Sys) {
    exists start: int, steps: seq<Step> :: ValidRun(p, Initial(start), steps) && Run(p, Initial(start), steps) == s
  }

  lemma ReachableInv(p: Params, s: Sys)
    requires Reachable(p, s)
    ensures Inv(p, s)
  {
    var start: int, steps: seq<Step> :| ValidRun(p, Initial(start), steps) && Run(p, Initial(start), steps) == s;
    Always(p, Initial(start), steps);
  }

  lemma {:induction false} Extend(p: Params, s: Sys, steps: seq<Step>, step: Step)
    requires ValidRun(p, s, steps) && Enabled(p, Run(p, s, steps), step)
    ensures ValidRun(p, s, steps + [step]) && Run(p, s, steps + [step]) == Do(p, Run(p, s, steps), step)
    decreases |steps|
  {
    if steps == [] {
      assert [] + [step] == [step];
    } else {
      Extend(p, Do(p, s, steps[0]), steps[1..], step);
      assert (steps + [step])[1..] == steps[1..] + [step];
    }
  }

  /** The state after `n` calls of the operation under way succeeded. */
  ghost function AfterCalls(p: Params, s: Sys, n: nat): Sys
    requires s.loop.Deletion? || s.loop.Application?
    requires n <= |Calls(p, s.loop)|
  {
    s.(cluster := Exec(s.cluster, Calls(p, s.loop)[..n]),
       loop := if s.loop.Deletion? then Deletion(s.loop.record, n, s.loop.queue)
               else Application(s.loop.record, s.loop.project, s.loop.version, n, s.loop.queue))
  }

  lemma CallStep(p: Params, s: Sys, n: nat)
    requires s.loop.Deletion? || s.loop.Application?
    requires n < |Calls(p, s.loop)|
    ensures Enabled(p, AfterCalls(p, s, n), CallSucceeds)
    ensures Do(p, AfterCalls(p, s, n), CallSucceeds) == AfterCalls(p, s, n + 1)
  {
    var s' := AfterCalls(p, s, n);
    assert Calls(p, s'.loop) == Calls(p, s.loop);
    ExecStep(s.cluster, Calls(p, s.loop), n);
  }

  function Called(p: Params, s: Sys): Sys {
    s.(cluster := Landed(p, s, true), loop := Advance(s.loop))
  }

  lemma DeliveriesIgnoreCalls(p: Params, s: Sys, request: DeployRequest, key: Key, id: string, hash: string)
    ensures DoDeploy(Called(p, s), request, hash) == Called(p, DoDeploy(s, request, hash))
    ensures DoDestroy(Called(p, s), key, id, hash) == Called(p, DoDestroy(s, key, id, hash))
  {
  }

  lemma CallIs(p: Params, s: Sys)
    requires CallPending(p, s.loop)
    ensures Enabled(p, s, CallSucceeds) && Do(p, s, CallSucceeds) == Called(p, s)
  {
  }

  /** A call and a delivery can change places: arriving between two calls of an operation comes to
      the same as arriving before the first. */
  lemma DeliveriesCommute(p: Params, s: Sys, delivery: Step)
    requires CallPending(p, s.loop) && Enabled(p, s, delivery)
    requires delivery.Tick? || delivery.Deploy? || delivery.Destroy?
    ensures Enabled(p, s, CallSucceeds) && Enabled(p, Do(p, s, CallSucceeds), delivery)
    ensures Enabled(p, Do(p, s, delivery), CallSucceeds)
    ensures Do(p, Do(p, s, CallSucceeds), delivery) == Do(p, Do(p, s, delivery), CallSucceeds)
  {
    CallIs(p, s);
    match delivery
    case Tick(now) => CallIs(p, s.(now := now));
    case Deploy(request, hash) =>
      DeliveriesIgnoreCalls(p, s, request, DeployKey(request), "", hash);
      CallIs(p, DoDeploy(s, request, hash));
    case Destroy(key, id, hash) =>
      DeliveriesIgnoreCalls(p, s, DeployRequest("", 0, "", "", ""), key, id, hash);
      CallIs(p, DoDestroy(s, key, id, hash));
  }

  // ---------------------------------------------------------------- what a step writes

  /** The one row write of a step that is not a delivery. */
  datatype RowWrite =
    | Nothing
    | Set(key: Key, state: DemoState, message: string, version: Option<int>, port: Option<int>)
    | Drop(key: Key)

  function Written(s: Sys, w: RowWrite): Demos {
    match w
    case Nothing => s.demos
    case Set(key, state, message, version, port) => UpdateState(s.demos, key, state, message, version, port, s.now)
    case Drop(key) => DeleteRecord(s.demos, key)
  }

  predicate IsWrite(p: Params, s: Sys, step: Step, w: RowWrite) {
    match w
    case Nothing => !step.BeginRecord? && !step.FinishDeletion? && !step.FinishApplication?
    case Set(key, state, _, version, port) =>
      if step.BeginRecord? then
        s.loop.Between? && s.loop.queue != [] && key == s.loop.queue[0].Id() && version == port == None
        && state == if Unwanted(s.loop.queue[0], s.now) then DemoState.Deleting else Reconciling
      else
        (s.loop.Deletion? || s.loop.Lookup? || s.loop.Application?) && key == s.loop.record.Id()
        && if step.FinishApplication? then
             s.loop.Application? && s.loop.done == |Calls(p, s.loop)|
             && state in {Ready, Reconciling} && port == Some(s.loop.project.port) && version == Some(s.loop.version)
           else state == Failed && version == port == None && !step.FinishDeletion?
    case Drop(key) => step.FinishDeletion? && s.loop.Deletion? && key == s.loop.record.Id()
  }

  lemma VaultAnswerWrites(p: Params, s: Sys, project: ProjectConfig, version: int) returns (w: RowWrite)
    requires s.loop.Lookup?
    ensures IsWrite(p, s, VaultAnswers(project, version), w)
    ensures DoVaultAnswers(p, s, project, version).demos == Written(s, w)
  {
    w := if NamespaceAllows(p, s.loop.record, project) then Nothing
         else Set(s.loop.record.Id(), Failed, "Kubernetes reconciliation failed (ValueError)", None, None);
  }

  lemma VaultFailureWrites(p: Params, s: Sys) returns (w: RowWrite)
    requires Enabled(p, s, VaultFails)
    ensures IsWrite(p, s, VaultFails, w) && Do(p, s, VaultFails).demos == Written(s, w)
  {
    w := Set(s.loop.record.Id(), Failed, "Vault reconciliation failed", None, None);
  }

  lemma CallFailsWrites(p: Params, s: Sys, landed: bool) returns (w: RowWrite)
    requires s.loop.Deletion? || s.loop.Application?
    ensures IsWrite(p, s, CallFails(landed), w) && DoCallFails(p, s, landed).demos == Written(s, w)
  {
    w := Set(s.loop.record.Id(), Failed,
             if s.loop.Deletion? then "Kubernetes deletion failed" else "Kubernetes reconciliation failed", None, None);
  }

  lemma BeginWrites(p: Params, s: Sys) returns (w: RowWrite)
    requires Enabled(p, s, BeginRecord)
    ensures IsWrite(p, s, BeginRecord, w) && Do(p, s, BeginRecord).demos == Written(s, w)
  {
    var record := s.loop.queue[0];
    w := if Unwanted(record, s.now) then Set(record.Id(), DemoState.Deleting, "deleting resources", None, None)
         else Set(record.Id(), Reconciling, "loading configuration", None, None);
  }

  lemma FinishWrites(p: Params, s: Sys, ready: bool) returns (w: RowWrite)
    requires s.loop.Application? && s.loop.done == |Calls(p, s.loop)|
    ensures IsWrite(p, s, FinishApplication(ready), w) && DoFinishApplication(s, ready).demos == Written(s, w)
  {
    w := Set(s.loop.record.Id(), if ready then Ready else Reconciling,
             if ready then "deployment is ready" else "waiting for deployment readiness",
             Some(s.loop.version), Some(s.loop.project.port));
  }

  lemma StepWrites(p: Params, s: Sys, step: Step) returns (w: RowWrite)
    requires Enabled(p, s, step) && !step.Deploy? && !step.Destroy?
    ensures IsWrite(p, s, step, w) && Do(p, s, step).demos == Written(s, w)
  {
    match step
    case BeginRecord => w := BeginWrites(p, s);
    case VaultAnswers(project, version) => w := VaultAnswerWrites(p, s, project, version);
    case VaultFails => w := VaultFailureWrites(p, s);
    case CallFails(landed) => w := CallFailsWrites(p, s, landed);
    case FinishDeletion => w := Drop(s.loop.record.Id());
    case FinishApplication(ready) => w := FinishWrites(p, s, ready);
    case _ => w := Nothing;
  }

  // ---------------------------------------------------------------- resources

  /** No orphans: whatever failed, crashed or interleaved, every resource carries the name of a
      record that is still stored, and every Deployment an authorised image of that repository. */
  lemma NoOrphans(p: Params, s: Sys, id: ResourceId)
    requires Reachable(p, s) && id in s.cluster
    ensures exists k | k in s.demos ::
              p.name(k) == id.name
              && (id.kind.Deployment? ==>
                    s.cluster[id].DeploymentOf? && s.cluster[id].image.Some?
                    && AuthorisedImage(p.registry, k.repository, s.cluster[id].image.value))
  {
    ReachableInv(p, s);
    assert Owned(p, s.demos.Keys, s.cluster[id]);
    var k :| k in s.demos.Keys && p.name(k) == s.cluster[id].meta.name
             && (s.cluster[id].DeploymentOf? ==> s.cluster[id].image.Some? && AuthorisedImage(p.registry, k.repository, s.cluster[id].image.value));
  }

  lemma DeliveriesAddRows(s: Sys, k: Key, request: DeployRequest, key: Key, id: string, hash: string)
    requires k in s.demos
    ensures k in DoDeploy(s, request, hash).demos && k in DoDestroy(s, key, id, hash).demos
  {
  }

  lemma LoopKeepsRow(p: Params, s: Sys, step: Step, k: Key)
    requires Enabled(p, s, step) && !step.Deploy? && !step.Destroy? && !step.FinishDeletion? && k in s.demos
    ensures k in Do(p, s, step).demos
  {
    var w := StepWrites(p, s, step);
  }

  /** Rows disappear in one step only. */
  lemma RowsDisappearByDeletion(p: Params, s: Sys, step: Step, k: Key)
    requires Enabled(p, s, step) && !step.FinishDeletion? && k in s.demos
    ensures k in Do(p, s, step).demos
  {
    if step.Deploy? {
      DeliveriesAddRows(s, k, step.request, k, "", step.hash);
    } else if step.Destroy? {
      DeliveriesAddRows(s, k, DeployRequest("", 0, "", "", ""), step.key, step.id, step.hash);
    } else {
      LoopKeepsRow(p, s, step, k);
    }
  }

  /** A record outlives its last resource: deleting the row leaves nothing under its name. */
  lemma RecordOutlivesResources(p: Params, s: Sys, step: Step, k: Key, id: ResourceId)
    requires Reachable(p, s) && Enabled(p, s, step)
    requires k in s.demos && k !in Do(p, s, step).demos
    ensures id in Do(p, s, step).cluster ==> id.name != p.name(k)
  {
    if step.FinishDeletion? {
      ReachableInv(p, s);
      DeletionClears(p, s);
    } else {
      RowsDisappearByDeletion(p, s, step, k);
    }
  }

  /** Repositories come from validated requests, and an image only with a well-formed registry. */
  ghost predicate GrammarOk(p: Params, demos: Demos) {
    forall k | k in demos ::
      ValidRepository(k.repository) && (demos[k].image.Some? ==> Matches(RegistryRegex(), p.registry))
  }

  /** The reconciler's writes bring in no key and no image. */
  predicate NothingNew(demos: Demos, demos': Demos) {
    forall k | k in demos' :: k in demos && demos'[k].image == demos[k].image
  }

  lemma LoopBringsNothingNew(p: Params, s: Sys, step: Step)
    requires Enabled(p, s, step) && !step.Deploy? && !step.Destroy?
    ensures NothingNew(s.demos, Do(p, s, step).demos)
  {
    var w := StepWrites(p, s, step);
  }

  lemma NothingNewKeepsGrammar(p: Params, demos: Demos, demos': Demos)
    requires GrammarOk(p, demos) && NothingNew(demos, demos')
    ensures GrammarOk(p, demos')
  {
  }

  lemma DeployKeepsGrammar(p: Params, s: Sys, request: DeployRequest, hash: string)
    requires GrammarOk(p, s.demos) && ValidRepository(request.repository) && Matches(RegistryRegex(), p.registry)
    ensures GrammarOk(p, DoDeploy(s, request, hash).demos)
  {
    var demos, demos', key := s.demos, DoDeploy(s, request, hash).demos, DeployKey(request);
    assert forall k | k in demos' && k != key :: k in demos && demos'[k] == demos[k];
  }

  lemma DestroyKeepsGrammar(p: Params, s: Sys, key: Key, id: string, hash: string)
    requires GrammarOk(p, s.demos) && ValidRepository(key.repository)
    ensures GrammarOk(p, DoDestroy(s, key, id, hash).demos)
  {
    var demos, demos' := s.demos, DoDestroy(s, key, id, hash).demos;
    assert forall k | k in demos' && k != key :: k in demos && demos'[k] == demos[k];
  }

  lemma StepKeepsGrammar(p: Params, s: Sys, step: Step)
    requires GrammarOk(p, s.demos) && Enabled(p, s, step)
    ensures GrammarOk(p, Do(p, s, step).demos)
  {
    match step
    case Deploy(request, hash) =>
      AcceptedImageIff(p.registry, request.repository, request.image);
      DeployKeepsGrammar(p, s, request, hash);
    case Destroy(key, id, hash) => DestroyKeepsGrammar(p, s, key, id, hash);
    case _ =>
      LoopBringsNothingNew(p, s, step);
      NothingNewKeepsGrammar(p, s.demos, Do(p, s, step).demos);
  }

  lemma {:induction false} RunKeepsGrammar(p: Params, s: Sys, steps: seq<Step>)
    requires GrammarOk(p, s.demos) && ValidRun(p, s, steps)
    ensures GrammarOk(p, Run(p, s, steps).demos)
    decreases |steps|
  {
    if steps != [] {
      StepKeepsGrammar(p, s, steps[0]);
      RunKeepsGrammar(p, Do(p, s, steps[0]), steps[1..]);
    }
  }

  lemma ReachableGrammar(p: Params, s: Sys)
    requires Reachable(p, s)
    ensures GrammarOk(p, s.demos)
  {
    var start: int, steps: seq<Step> :| ValidRun(p, Initial(start), steps) && Run(p, Initial(start), steps) == s;
    RunKeepsGrammar(p, Initial(start), steps);
  }

  /** While a rendering is applied under a Vault namespace, that namespace is the repository itself. */
  lemma AppliedInsideNamespace(p: Params, s: Sys)
    requires Reachable(p, s) && s.loop.Application?
    requires s.loop.project.imageNamespace.Some? && s.loop.project.imageNamespace.value != ""
    ensures Lower(s.loop.project.imageNamespace.value) == s.loop.record.repository
  {
    ReachableInv(p, s);
    ReachableGrammar(p, s);
    var record := s.loop.record;
    assert JobOk(p, s, record) by { assert Jobs(s.loop)[0] == record; }
    ImageStays(s.seen[record.Id()], s.log[record.Id()]);
    NamespaceCheckIff(p.registry, record.repository, record.image.value, Lower(s.loop.project.imageNamespace.value));
  }

  /** In every run the namespace check of a record lets an answer pass exactly if Vault names no
      namespace, or the record's own repository. */
  lemma NamespaceAllowsIff(p: Params, s: Sys, project: ProjectConfig)
    requires Reachable(p, s) && s.loop.Lookup?
    ensures NamespaceAllows(p, s.loop.record, project)
            <==> project.imageNamespace.None? || project.imageNamespace.value == ""
                 || Lower(project.imageNamespace.value) == s.loop.record.repository
  {
    ReachableInv(p, s);
    ReachableGrammar(p, s);
    var record := s.loop.record;
    assert JobOk(p, s, record) by { assert Jobs(s.loop)[0] == record; }
    ImageStays(s.seen[record.Id()], s.log[record.Id()]);
    if project.imageNamespace.Some? {
      NamespaceCheckIff(p.registry, record.repository, record.image.value, Lower(project.imageNamespace.value));
    }
  }

  /** Once deliveries brought an image, later deliveries leave one. */
  lemma ImageStays(before: seq<Delivery>, after: seq<Delivery>)
    requires before != [] && before <= after && Wanted(before).image.Some?
    ensures Wanted(after).image.Some?
  {
    var i := LastDeploy(before);
    assert EffectiveDeploy(after, i);
  }

  // ---------------------------------------------------------------- completed applies

  /** The calls of the application under way that are done have their effect in the cluster. */
  predicate DoneCallsHold(p: Params, s: Sys) {
    s.loop.Application? ==>
      var calls := Calls(p, s.loop);
      s.loop.done <= |calls| && forall i | 0 <= i < s.loop.done ::
        At(s.cluster, Target(calls[i])) == if calls[i].Put? then Some(calls[i].resource) else None
  }

  lemma CallKeepsHolding(p: Params, s: Sys)
    requires DoneCallsHold(p, s) && CallPending(p, s.loop)
    ensures DoneCallsHold(p, s.(cluster := Landed(p, s, true), loop := Advance(s.loop)))
  {
    if s.loop.Application? {
      var name := p.name(s.loop.record.Id());
      RenderWellRendered(p.place, name, s.loop.record, s.loop.project, s.loop.version);
      ApplyTargets(Render(p.place, name, s.loop.record, s.loop.project, s.loop.version), name);
      assert Calls(p, Advance(s.loop)) == Calls(p, s.loop);
    }
  }

  /** These steps end an application, or happen outside of one. */
  lemma NoApplicationAfter(p: Params, s: Sys, step: Step)
    requires Enabled(p, s, step)
    requires !step.Tick? && !step.Deploy? && !step.Destroy? && !step.VaultAnswers? && !step.CallSucceeds?
    ensures !Do(p, s, step).loop.Application?
  {
  }

  /** Deliveries and the clock change neither the loop nor the cluster. */
  lemma ArrivalKeepsLoop(p: Params, s: Sys, step: Step)
    requires Enabled(p, s, step) && (step.Tick? || step.Deploy? || step.Destroy?)
    ensures Do(p, s, step).loop == s.loop && Do(p, s, step).cluster == s.cluster
  {
  }

  lemma StepKeepsHolding(p: Params, s: Sys, step: Step)
    requires DoneCallsHold(p, s) && Enabled(p, s, step)
    ensures DoneCallsHold(p, Do(p, s, step))
  {
    if step.Tick? || step.Deploy? || step.Destroy? {
      ArrivalKeepsLoop(p, s, step);
    } else if step.VaultAnswers? {
      assert DoneCallsHold(p, DoVaultAnswers(p, s, step.project, step.version));
    } else if step.CallSucceeds? {
      CallKeepsHolding(p, s);
    } else {
      NoApplicationAfter(p, s, step);
    }
  }

  lemma {:induction false} RunKeepsHolding(p: Params, s: Sys, steps: seq<Step>)
    requires DoneCallsHold(p, s) && ValidRun(p, s, steps)
    ensures DoneCallsHold(p, Run(p, s, steps))
    decreases |steps|
  {
    if steps != [] {
      StepKeepsHolding(p, s, steps[0]);
      RunKeepsHolding(p, Do(p, s, steps[0]), steps[1..]);
    }
  }

  /** When an apply has made its last call, in any run, the cluster holds exactly the rendering under
      the name: nothing of an earlier rendering is left, whatever failed before. */
  lemma CompletedApplyIsExact(p: Params, s: Sys, kind: Kind)
    requires Reachable(p, s) && s.loop.Application? && s.loop.done == |Calls(p, s.loop)|
    ensures var record := s.loop.record;
            var name := p.name(record.Id());
            At(s.cluster, ResourceId(kind, name))
            == Render(p.place, name, record, s.loop.project, s.loop.version).Part(kind)
  {
    var start: int, steps: seq<Step> :| ValidRun(p, Initial(start), steps) && Run(p, Initial(start), steps) == s;
    RunKeepsHolding(p, Initial(start), steps);
    var name := p.name(s.loop.record.Id());
    var r := Render(p.place, name, s.loop.record, s.loop.project, s.loop.version);
    RenderWellRendered(p.place, name, s.loop.record, s.loop.project, s.loop.version);
    ApplyTargets(r, name);
    KindTarget(r, name, kind);
    assert KindOp(r, name, kind) in Calls(p, s.loop);
  }

  /** After a completed apply, in any run, the workload runs as configured. */
  lemma WorkloadAsConfigured(p: Params, s: Sys)
    requires Reachable(p, s) && s.loop.Application? && s.loop.done == |Calls(p, s.loop)|
    ensures RunsAsConfigured(s.cluster, p.place, p.name(s.loop.record.Id()), s.loop.record, s.loop.project, s.loop.version)
  {
    var name := p.name(s.loop.record.Id());
    forall kind: Kind
      ensures At(s.cluster, ResourceId(kind, name)) == Render(p.place, name, s.loop.record, s.loop.project, s.loop.version).Part(kind)
    {
      CompletedApplyIsExact(p, s, kind);
    }
    AppliedConfigIsValid(p, s);
    RenderedRuns(s.cluster, p.place, name, s.loop.record, s.loop.project, s.loop.version);
  }

  lemma AppliedConfigIsValid(p: Params, s: Sys)
    requires Reachable(p, s) && s.loop.Application?
    ensures ValidConfig(s.loop.project)
  {
    ReachableInv(p, s);
  }

  /** A record turns ready only on a completed apply. What runs then is the image its row asks for
      exactly if no deploy came since the pass took its snapshot, or the last one asks for the same image. */
  lemma ReadyRunsDeliveredImage(p: Params, s: Sys)
    requires Reachable(p, s) && Enabled(p, s, FinishApplication(true))
    ensures var k := s.loop.record.Id();
            && k in s.demos && k in s.log && k in s.seen && s.seen[k] != []
            && var deployed, last := At(s.cluster, ResourceId(Deployment, p.name(k))), LastDeploy(s.log[k]);
               deployed.Some? && deployed.value.DeploymentOf?
               && deployed.value.image == Wanted(s.seen[k]).image
               && (deployed.value.image == s.demos[k].image
                   <==> last < |s.seen[k]| || Some(s.log[k][last].image) == Wanted(s.seen[k]).image)
  {
    CompletedApplyIsExact(p, s, Deployment);
    HandledAsDelivered(p, s, 0);
  }

  // ---------------------------------------------------------------- records

  /** The delivery columns of every row are what the deliveries since its creation ask for. */
  lemma DeliveriesDecide(p: Params, s: Sys, k: Key)
    requires Reachable(p, s)
    ensures k in s.demos <==> k in s.log
    ensures k in s.demos ==> s.log[k] != [] && DesiredOf(s.demos[k]) == Wanted(s.log[k])
  {
    ReachableInv(p, s);
  }

  predicate IsLastDeploy(log: seq<Delivery>, i: nat) {
    i < |log| && EffectiveDeploy(log, i) && forall j | i < j < |log| :: !EffectiveDeploy(log, j)
  }

  lemma WantedLifetime(log: seq<Delivery>)
    requires log != []
    ensures forall i: nat | IsLastDeploy(log, i) :: Wanted(log).expiresAt == log[i].at + 259_200 && Wanted(log).image == Some(log[i].image)
    ensures (forall i | 0 <= i < |log| :: !EffectiveDeploy(log, i)) ==>
              Wanted(log).expiresAt == Wanted(log).createdAt && Wanted(log).image == None
  {
    var d := LastDeploy(log);
    assert d >= 0 ==> EffectiveDeploy(log, d);
    forall i: nat | IsLastDeploy(log, i) ensures i == d {
      assert EffectiveDeploy(log, i);
    }
  }

  /** Three days from the last effective deploy, or from creation when nothing was deployed. */
  lemma FixedLifetime(p: Params, s: Sys, k: Key)
    requires Reachable(p, s) && k in s.demos
    ensures k in s.log
    ensures forall i: nat | IsLastDeploy(s.log[k], i) ::
              s.demos[k].expiresAt == s.log[k][i].at + 259_200 && s.demos[k].image == Some(s.log[k][i].image)
    ensures (forall i | 0 <= i < |s.log[k]| :: !EffectiveDeploy(s.log[k], i)) ==>
              s.demos[k].expiresAt == s.demos[k].createdAt && s.demos[k].image == None
  {
    DeliveriesDecide(p, s, k);
    WantedLifetime(s.log[k]);
  }

  lemma DeployMovesLifetime(s: Sys, k: Key, request: DeployRequest, hash: string)
    requires k in s.demos
    ensures var s' := DoDeploy(s, request, hash);
            k in s'.demos && s'.demos[k].expiresAt == if DeployKey(request) == k && request.deliveryId != s.demos[k].deliveryId
                                                      then s.now + 259_200 else s.demos[k].expiresAt
  {
  }

  lemma DestroyKeepsLifetime(s: Sys, k: Key, key: Key, id: string, hash: string)
    requires k in s.demos
    ensures k in DoDestroy(s, key, id, hash).demos && DoDestroy(s, key, id, hash).demos[k].expiresAt == s.demos[k].expiresAt
  {
  }

  lemma LoopKeepsLifetime(p: Params, s: Sys, step: Step, k: Key)
    requires Enabled(p, s, step) && !step.Deploy? && !step.Destroy?
    requires k in s.demos && k in Do(p, s, step).demos
    ensures Do(p, s, step).demos[k].expiresAt == s.demos[k].expiresAt
  {
    var w := StepWrites(p, s, step);
  }

  /** Only an effective deploy of the key moves its expiry. */
  lemma LifetimeMovesOnlyByDeploy(p: Params, s: Sys, step: Step, k: Key)
    requires Enabled(p, s, step) && k in s.demos && k in Do(p, s, step).demos
    ensures Do(p, s, step).demos[k].expiresAt
            == if step.Deploy? && DeployKey(step.request) == k && step.request.deliveryId != s.demos[k].deliveryId
               then s.now + 259_200 else s.demos[k].expiresAt
  {
    if step.Deploy? {
      DeployMovesLifetime(s, k, step.request, step.hash);
    } else if step.Destroy? {
      DestroyKeepsLifetime(s, k, step.key, step.id, step.hash);
    } else {
      LoopKeepsLifetime(p, s, step, k);
    }
  }

  /** The shape of every stored row, and none is hidden from the loop. */
  lemma RowShape(p: Params, s: Sys, k: Key)
    requires Reachable(p, s) && k in s.demos
    ensures var row := s.demos[k];
            && (row.port.Some? <==> row.vaultVersion.Some?)
            && (row.state.Ready? ==> row.port.Some? && 1024 <= row.port.value <= 65535)
            && (row.state.Pending? ==> row.desiredPresent)
            && (row.desiredPresent ==> row.commitSha.Some? && row.image.Some?)
    ensures forall rows | Enabled(p, s, BeginPass(rows)) :: s.demos[k] in rows
  {
    assert RowOk(p, s.demos[k]) by { ReachableInv(p, s); }
  }

  // ---------------------------------------------------------------- routes

  predicate Routed(s: Sys, k: Key) {
    k in s.demos && Eligible(s.demos[k])
  }

  /** The steps that cut a route: an effective destroy, the delete branch, and the row's removal. */
  predicate CutsRoute(s: Sys, step: Step, k: Key) {
    match step
    case Destroy(key, id, hash) => key == k && Judge(s.demos, key, id, hash).Changed?
    case BeginRecord =>
      s.loop.Between? && s.loop.queue != [] && s.loop.queue[0].Id() == k && Unwanted(s.loop.queue[0], s.now)
    case FinishDeletion => s.loop.Deletion? && s.loop.record.Id() == k
    case _ => false
  }

  lemma DeployRoute(s: Sys, k: Key, request: DeployRequest, hash: string)
    requires Routed(s, k)
    ensures Routed(DoDeploy(s, request, hash), k)
  {
  }

  /** A step takes a routed record out of routing exactly when it cuts its route. */
  lemma RouteCutIff(p: Params, s: Sys, step: Step, k: Key)
    requires Enabled(p, s, step) && Routed(s, k)
    ensures Routed(Do(p, s, step), k) <==> !CutsRoute(s, step, k)
  {
    match step
    case Deploy(request, hash) => DeployRoute(s, k, request, hash);
    case Destroy(key, id, hash) => DestroyRoute(s, k, key, id, hash);
    case _ => LoopRoute(p, s, step, k);
  }

  lemma DestroyRoute(s: Sys, k: Key, key: Key, id: string, hash: string)
    requires Routed(s, k)
    ensures Routed(DoDestroy(s, key, id, hash), k) <==> !CutsRoute(s, Destroy(key, id, hash), k)
  {
  }

  lemma LoopRoute(p: Params, s: Sys, step: Step, k: Key)
    requires Enabled(p, s, step) && Routed(s, k) && !step.Deploy? && !step.Destroy?
    ensures Routed(Do(p, s, step), k) <==> !CutsRoute(s, step, k)
  {
    var w := StepWrites(p, s, step);
  }

  lemma DeployKeepsPort(s: Sys, k: Key, request: DeployRequest, hash: string)
    requires k in s.demos
    ensures k in DoDeploy(s, request, hash).demos && DoDeploy(s, request, hash).demos[k].port == s.demos[k].port
  {
  }

  lemma DestroyKeepsPort(s: Sys, k: Key, key: Key, id: string, hash: string)
    requires k in s.demos
    ensures k in DoDestroy(s, key, id, hash).demos && DoDestroy(s, key, id, hash).demos[k].port == s.demos[k].port
  {
  }

  /** The port of a stored row changes only after a completed apply, to the port that was applied. */
  lemma PortOnlyFromApply(p: Params, s: Sys, step: Step, k: Key)
    requires Enabled(p, s, step) && k in s.demos && k in Do(p, s, step).demos
    requires Do(p, s, step).demos[k].port != s.demos[k].port
    ensures step.FinishApplication? && s.loop.Application? && s.loop.record.Id() == k
            && s.loop.done == |Calls(p, s.loop)| && Do(p, s, step).demos[k].port == Some(s.loop.project.port)
  {
    if step.Deploy? {
      DeployKeepsPort(s, k, step.request, step.hash);
    } else if step.Destroy? {
      DestroyKeepsPort(s, k, step.key, step.id, step.hash);
    } else {
      var w := StepWrites(p, s, step);
    }
  }

  ghost predicate NeverCut(p: Params, s: Sys, steps: seq<Step>, k: Key)
    requires ValidRun(p, s, steps)
    decreases |steps|
  {
    steps == [] || (!CutsRoute(s, steps[0], k) && NeverCut(p, Do(p, s, steps[0]), steps[1..], k))
  }

  /** Redeploys, Vault failures, failed and partial applies and crashes retain the route. */
  lemma {:induction false} RouteRetained(p: Params, s: Sys, steps: seq<Step>, k: Key)
    requires ValidRun(p, s, steps) && Routed(s, k) && NeverCut(p, s, steps, k)
    ensures Routed(Run(p, s, steps), k)
    decreases |steps|
  {
    if steps != [] {
      RouteCutIff(p, s, steps[0], k);
      RouteRetained(p, Do(p, s, steps[0]), steps[1..], k);
    }
  }

  lemma DeployMakesWanted(p: Params, s: Sys, request: DeployRequest, hash: string)
    requires RowsOk(p, s.demos) && !p.ofDestroy(hash) && !Judge(s.demos, DeployKey(request), request.deliveryId, hash).Conflict?
    ensures var demos, k := DoDeploy(s, request, hash).demos, DeployKey(request); k in demos && demos[k].desiredPresent
  {
    var k := DeployKey(request);
    if k in s.demos { assert RowOk(p, s.demos[k]); }
  }

  lemma DestroyMakesUnwanted(p: Params, s: Sys, k: Key, id: string, hash: string)
    requires RowsOk(p, s.demos) && p.ofDestroy(hash) && !Judge(s.demos, k, id, hash).Conflict?
    ensures var demos := DoDestroy(s, k, id, hash).demos; k in demos && !demos[k].desiredPresent
  {
    if k in s.demos { assert RowOk(p, s.demos[k]); }
  }

  /** Every accepted delivery decides whether the demo is wanted, repeats included: the request hash
      of a repeat is that of a request of the same kind. */
  lemma DeliveryDecidesPresence(p: Params, s: Sys, step: Step, k: Key)
    requires Reachable(p, s) && Enabled(p, s, step)
    requires match step
             case Deploy(request, hash) => k == DeployKey(request) && !Judge(s.demos, k, request.deliveryId, hash).Conflict?
             case Destroy(key, id, hash) => k == key && !Judge(s.demos, k, id, hash).Conflict?
             case _ => false
    ensures k in Do(p, s, step).demos && (Do(p, s, step).demos[k].desiredPresent <==> step.Deploy?)
  {
    assert RowsOk(p, s.demos) by { ReachableInv(p, s); }
    match step
    case Deploy(request, hash) => DeployMakesWanted(p, s, request, hash);
    case Destroy(key, id, hash) => DestroyMakesUnwanted(p, s, key, id, hash);
  }

  /** The delivery ID of the row is that of the last accepted delivery, repeats included. */
  lemma LastAcceptedId(p: Params, s: Sys, k: Key)
    requires Reachable(p, s) && k in s.demos
    ensures k in s.log && s.log[k] != [] && s.demos[k].deliveryId == s.log[k][|s.log[k]| - 1].id
  {
    DeliveriesDecide(p, s, k);
    SameIdAfter(s.log[k], LastEffective(s.log[k]), |s.log[k]| - 1);
  }

  lemma DeployChangesUnlessRepeat(s: Sys, request: DeployRequest, hash: string)
    requires !Judge(s.demos, DeployKey(request), request.deliveryId, hash).Conflict?
    ensures var k := DeployKey(request);
            DoDeploy(s, request, hash).demos == s.demos <==> k in s.demos && s.demos[k].deliveryId == request.deliveryId
  {
    var k, demos := DeployKey(request), DoDeploy(s, request, hash).demos;
    assert k in demos && demos[k].deliveryId == request.deliveryId;
  }

  lemma DestroyChangesUnlessRepeat(s: Sys, k: Key, id: string, hash: string)
    requires !Judge(s.demos, k, id, hash).Conflict?
    ensures DoDestroy(s, k, id, hash).demos == s.demos <==> k in s.demos && s.demos[k].deliveryId == id
  {
    var demos := DoDestroy(s, k, id, hash).demos;
    assert k in demos && demos[k].deliveryId == id;
  }

  /** When a delivery is idempotent: in every reachable state, an accepted delivery leaves the store as
      it was exactly if the last accepted delivery for its demo, since the row was created, carries the
      same ID. Any other delivery in between makes the repeat take effect again. */
  lemma RepeatIsNoOpIff(p: Params, s: Sys, step: Step)
    requires Reachable(p, s) && Enabled(p, s, step)
    requires match step
             case Deploy(request, hash) => !Judge(s.demos, DeployKey(request), request.deliveryId, hash).Conflict?
             case Destroy(key, id, hash) => !Judge(s.demos, key, id, hash).Conflict?
             case _ => false
    ensures var (k, id) := if step.Deploy? then (DeployKey(step.request), step.request.deliveryId) else (step.key, step.id);
            && (k in s.demos ==> k in s.log && s.log[k] != [])
            && (Do(p, s, step).demos == s.demos <==> k in s.demos && s.log[k][|s.log[k]| - 1].id == id)
  {
    match step
    case Deploy(request, hash) =>
      if DeployKey(request) in s.demos { LastAcceptedId(p, s, DeployKey(request)); }
      DeployChangesUnlessRepeat(s, request, hash);
    case Destroy(key, id, hash) =>
      if key in s.demos { LastAcceptedId(p, s, key); }
      DestroyChangesUnlessRepeat(s, key, id, hash);
  }

  predicate Withdrawn(s: Sys, k: Key) {
    k in s.demos ==> !s.demos[k].desiredPresent
  }

  predicate NoDeployOf(steps: seq<Step>, k: Key) {
    forall i | 0 <= i < |steps| :: steps[i].Deploy? ==> DeployKey(steps[i].request) != k
  }

  lemma DeployElsewhere(s: Sys, k: Key, request: DeployRequest, hash: string)
    requires DeployKey(request) != k
    ensures k in DoDeploy(s, request, hash).demos <==> k in s.demos
    ensures k in s.demos ==> DoDeploy(s, request, hash).demos[k] == s.demos[k]
  {
  }

  lemma DestroyLeavesWithdrawn(s: Sys, k: Key, key: Key, id: string, hash: string)
    requires Withdrawn(s, k)
    ensures Withdrawn(DoDestroy(s, key, id, hash), k)
  {
  }

  lemma LoopKeepsWithdrawn(p: Params, s: Sys, step: Step, k: Key)
    requires Enabled(p, s, step) && !step.Deploy? && !step.Destroy? && Withdrawn(s, k)
    ensures Withdrawn(Do(p, s, step), k)
  {
    var w := StepWrites(p, s, step);
  }

  lemma StepKeepsWithdrawn(p: Params, s: Sys, step: Step, k: Key)
    requires Enabled(p, s, step) && Withdrawn(s, k)
    requires step.Deploy? ==> DeployKey(step.request) != k
    ensures Withdrawn(Do(p, s, step), k)
  {
    if step.Deploy? {
      DeployElsewhere(s, k, step.request, step.hash);
    } else if step.Destroy? {
      DestroyLeavesWithdrawn(s, k, step.key, step.id, step.hash);
    } else {
      LoopKeepsWithdrawn(p, s, step, k);
    }
  }

  lemma {:induction false} WithdrawnStays(p: Params, s: Sys, steps: seq<Step>, k: Key)
    requires ValidRun(p, s, steps) && Withdrawn(s, k) && NoDeployOf(steps, k)
    ensures Withdrawn(Run(p, s, steps), k)
    decreases |steps|
  {
    if steps != [] {
      assert steps[0].Deploy? ==> DeployKey(steps[0].request) != k;
      StepKeepsWithdrawn(p, s, steps[0], k);
      WithdrawnStays(p, Do(p, s, steps[0]), steps[1..], k);
    }
  }

  /** After an accepted destroy the demo is not routed in any later state until it is deployed again,
      whatever an in-flight reconcile writes into its row. */
  lemma DestroyIsDecisive(p: Params, s: Sys, k: Key, id: string, hash: string, steps: seq<Step>)
    requires Reachable(p, s) && Enabled(p, s, Destroy(k, id, hash)) && !Judge(s.demos, k, id, hash).Conflict?
    requires ValidRun(p, Do(p, s, Destroy(k, id, hash)), steps) && NoDeployOf(steps, k)
    ensures !Routed(Run(p, Do(p, s, Destroy(k, id, hash)), steps), k)
  {
    DeliveryDecidesPresence(p, s, Destroy(k, id, hash), k);
    WithdrawnStays(p, Do(p, s, Destroy(k, id, hash)), steps, k);
  }

  lemma FailureRoute(s: Sys, record: DemoRecord, message: string, rest: seq<DemoRecord>)
    requires record.Id() in s.demos
    ensures Routed(Failure(s, record, message, rest), record.Id())
            <==> s.demos[record.Id()].desiredPresent && s.demos[record.Id()].port.Some?
  {
  }

  /** Routing ignores expiry: when deleting an expired demo fails, its route comes back. */
  lemma FailedExpiryRestoresRoute(p: Params, s: Sys, landed: bool)
    requires Reachable(p, s) && s.loop.Deletion? && CallPending(p, s.loop)
    ensures var k := s.loop.record.Id();
            k in s.demos
            && (Routed(Do(p, s, CallFails(landed)), k) <==> s.demos[k].desiredPresent && s.demos[k].port.Some?)
  {
    var record := s.loop.record;
    HandledAsDelivered(p, s, 0);
    FailureRoute(s.(cluster := Landed(p, s, landed)), record, "Kubernetes deletion failed", s.loop.queue);
  }

  // ---------------------------------------------------------------- the stale snapshot

  /** Deliveries after a prefix matter only if one of them is effective. */
  lemma WantedPrefix(before: seq<Delivery>, after: seq<Delivery>)
    requires before != [] && before <= after
    ensures LastEffective(after) < |before| ==> Wanted(after) == Wanted(before)
    ensures LastDeploy(after) < |before| ==> Wanted(after).image == Wanted(before).image
  {
    EffectiveInPrefix(before, after);
    var d, e := LastDeploy(after), LastEffective(after);
    if d < |before| {
      assert d >= 0 ==> EffectiveDeploy(before, d);
      assert LastDeploy(before) >= 0 ==> EffectiveDeploy(after, LastDeploy(before));
      assert LastDeploy(before) == d;
    }
    if e < |before| {
      assert Effective(before, e) && Effective(after, LastEffective(before));
      assert LastEffective(before) == e;
      if d >= 0 { assert Effective(after, d); }
    }
  }

  lemma EffectiveInPrefix(before: seq<Delivery>, after: seq<Delivery>)
    requires before <= after
    ensures forall i | 0 <= i < |before| :: Effective(before, i) == Effective(after, i) && EffectiveDeploy(before, i) == EffectiveDeploy(after, i)
  {
  }

  /** The pass handles a record as its deliveries asked when the pass began, and as they ask now
      unless an effective delivery came in between; it renders the current image unless a deploy did. */
  lemma HandledAsDelivered(p: Params, s: Sys, i: nat)
    requires Reachable(p, s) && i < |Jobs(s.loop)|
    ensures var record := Jobs(s.loop)[i];
            var k := record.Id();
            && k in s.demos && k in s.log && k in s.seen && s.seen[k] != [] && s.seen[k] <= s.log[k]
            && DesiredOf(record) == Wanted(s.seen[k])
            && (LastEffective(s.log[k]) < |s.seen[k]| ==> DesiredOf(record) == DesiredOf(s.demos[k]))
            && (LastDeploy(s.log[k]) < |s.seen[k]| ==> record.image == s.demos[k].image)
            && (LastDeploy(s.log[k]) >= |s.seen[k]| ==> s.demos[k].image == Some(s.log[k][LastDeploy(s.log[k])].image))
  {
    ReachableInv(p, s);
    var record := Jobs(s.loop)[i];
    assert JobOk(p, s, record);
    WantedPrefix(s.seen[record.Id()], s.log[record.Id()]);
  }

  /** The row is a deployment that somebody asked for and that has not expired. */
  predicate Live(row: DemoRecord, now: int) {
    row.desiredPresent && row.expiresAt > now
  }

  /** `delete_record` is unconditional: it drops a live deployment exactly when the key's last
      effective delivery is a deploy that arrived after the pass took its snapshot. */
  lemma DeploymentLostIff(p: Params, s: Sys)
    requires Reachable(p, s) && Enabled(p, s, FinishDeletion)
    ensures var k := s.loop.record.Id();
            && k in s.demos && k in s.log && k in s.seen && s.log[k] != []
            && k !in Do(p, s, FinishDeletion).demos
            && var last := LastEffective(s.log[k]);
               (Live(s.demos[k], s.now)
                <==> last >= |s.seen[k]| && s.log[k][last].Deployed? && s.log[k][last].at + 259_200 > s.now)
  {
    ReachableInv(p, s);
    HandledAsDelivered(p, s, 0);
    var log := s.log[s.loop.record.Id()];
    var last := LastEffective(log);
    if log[last].Deployed? { assert EffectiveDeploy(log, last); assert LastDeploy(log) == last; }
  }
}
