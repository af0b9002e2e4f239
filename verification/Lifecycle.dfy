/** The state of a record: which step gives it which state, and what an accepted delivery leaves. */
module Lifecycle {
  import opened Text
  import opened Models
  import opened Store
  import opened Kubernetes
  import opened ControlPlane
  import opened Safety
  import opened Guarantees
  import opened Retention

  // ---------------------------------------------------------------- what touches a row

  predicate Deploys(s: Sys, step: Step, k: Key) {
    step.Deploy? && DeployKey(step.request) == k && !(k in s.demos && s.demos[k].deliveryId == step.request.deliveryId)
  }

  predicate Destroys(s: Sys, step: Step, k: Key) {
    step.Destroy? && step.key == k && !(k in s.demos && s.demos[k].deliveryId == step.id)
  }

  /** `reconcile` begins with the record. */
  predicate TakesUp(s: Sys, step: Step, k: Key) {
    step.BeginRecord? && s.loop.Between? && s.loop.queue != [] && s.loop.queue[0].Id() == k
  }

  /** The record as the pass read it is unwanted or expired. */
  predicate UpForDeletion(s: Sys)
    requires s.loop.Between? && s.loop.queue != []
  {
    s.loop.queue[0].expiresAt <= s.now || !s.loop.queue[0].desiredPresent
  }

  predicate InHand(s: Sys, k: Key) {
    (s.loop.Deletion? || s.loop.Lookup? || s.loop.Application?) && s.loop.record.Id() == k
  }

  /** `reconcile` ends in an exception. */
  predicate FailsFor(p: Params, s: Sys, step: Step, k: Key) {
    InHand(s, k) && (step.VaultFails? || step.CallFails? || (step.VaultAnswers? && !NamespaceAllows(p, s.loop.record, step.project)))
  }

  predicate Touches(p: Params, s: Sys, step: Step, k: Key) {
    Deploys(s, step, k) || Destroys(s, step, k) || TakesUp(s, step, k) || FailsFor(p, s, step, k) || Finishes(s, step, k)
  }

  /** The state, times and frame of the row after the step, by what touched it. */
  predicate StateIs(p: Params, s: Sys, step: Step, k: Key, demos: Demos)
    requires k in demos
  {
    var was := if !Touches(p, s, step, k) && k in s.demos then Some(s.demos[k].state) else None;
    && (demos[k].state == Ready <==> was == Some(Ready) || (Finishes(s, step, k) && step.ready))
    && (demos[k].state == Pending <==> was == Some(Pending) || Deploys(s, step, k))
    && (demos[k].state == DemoState.Deleting <==>
          was == Some(DemoState.Deleting) || Destroys(s, step, k) || (TakesUp(s, step, k) && UpForDeletion(s)))
    && (demos[k].state == Failed <==> was == Some(Failed) || FailsFor(p, s, step, k))
    && (demos[k].state == Reconciling <==>
          was == Some(Reconciling) || (TakesUp(s, step, k) && !UpForDeletion(s)) || (Finishes(s, step, k) && !step.ready))
    && (if Touches(p, s, step, k) then demos[k].updatedAt == s.now && |demos[k].message| <= 1000
        else k in s.demos && demos[k] == s.demos[k])
  }

  lemma DeployState(p: Params, s: Sys, request: DeployRequest, hash: string, k: Key)
    requires k in DoDeploy(s, request, hash).demos
    ensures StateIs(p, s, Deploy(request, hash), k, DoDeploy(s, request, hash).demos)
  {
  }

  lemma DestroyState(p: Params, s: Sys, key: Key, id: string, hash: string, k: Key)
    requires k in DoDestroy(s, key, id, hash).demos
    ensures StateIs(p, s, Destroy(key, id, hash), k, DoDestroy(s, key, id, hash).demos)
  {
  }

  /** A row that the step neither writes nor concerns. */
  lemma OtherState(p: Params, s: Sys, step: Step, k: Key, demos: Demos)
    requires !Touches(p, s, step, k) && k in demos && k in s.demos && demos[k] == s.demos[k]
    ensures StateIs(p, s, step, k, demos)
  {
  }

  lemma TakenState(p: Params, s: Sys, k: Key)
    requires TakesUp(s, BeginRecord, k) && k in DoBeginRecord(s).demos
    ensures StateIs(p, s, BeginRecord, k, DoBeginRecord(s).demos)
  {
  }

  lemma BeginState(p: Params, s: Sys, k: Key)
    requires s.loop.Between? && s.loop.queue != [] && k in DoBeginRecord(s).demos
    ensures StateIs(p, s, BeginRecord, k, DoBeginRecord(s).demos)
  {
    if TakesUp(s, BeginRecord, k) { TakenState(p, s, k); } else { OtherState(p, s, BeginRecord, k, DoBeginRecord(s).demos); }
  }

  lemma AnswerState(p: Params, s: Sys, project: ProjectConfig, version: int, k: Key)
    requires s.loop.Lookup? && k in DoVaultAnswers(p, s, project, version).demos
    ensures StateIs(p, s, VaultAnswers(project, version), k, DoVaultAnswers(p, s, project, version).demos)
  {
    if NamespaceAllows(p, s.loop.record, project) {
      OtherState(p, s, VaultAnswers(project, version), k, s.demos);
    } else {
      FailState(p, s, VaultAnswers(project, version), "Kubernetes reconciliation failed (ValueError)", k);
    }
  }

  lemma FailState(p: Params, s: Sys, step: Step, message: string, k: Key)
    requires s.loop.Deletion? || s.loop.Lookup? || s.loop.Application?
    requires FailsFor(p, s, step, s.loop.record.Id())
    requires k in Failure(s, s.loop.record, message, s.loop.queue).demos
    ensures StateIs(p, s, step, k, Failure(s, s.loop.record, message, s.loop.queue).demos)
  {
  }

  lemma FinishState(p: Params, s: Sys, ready: bool, k: Key)
    requires s.loop.Application? && k in DoFinishApplication(s, ready).demos
    ensures StateIs(p, s, FinishApplication(ready), k, DoFinishApplication(s, ready).demos)
  {
  }

  /** These steps write no row, or only remove one. */
  lemma QuietState(p: Params, s: Sys, step: Step, k: Key)
    requires Enabled(p, s, step) && k in Do(p, s, step).demos
    requires step.Tick? || step.BeginPass? || step.EndPass? || step.CallSucceeds? || step.FinishDeletion? || step.Crash?
    ensures StateIs(p, s, step, k, Do(p, s, step).demos)
  {
  }

  /** Which step gives a row which state. In particular a row becomes ready exactly when an apply of its
      record finishes and its Deployment was reported available, and an unavailable one leaves the record
      reconciling. What is not touched stays as it is. */
  lemma StateAfter(p: Params, s: Sys, step: Step, k: Key)
    requires Enabled(p, s, step) && k in Do(p, s, step).demos
    ensures StateIs(p, s, step, k, Do(p, s, step).demos)
  {
    match step
    case Deploy(request, hash) => DeployState(p, s, request, hash, k);
    case Destroy(key, id, hash) => DestroyState(p, s, key, id, hash, k);
    case BeginRecord => BeginState(p, s, k);
    case VaultAnswers(project, version) => AnswerState(p, s, project, version, k);
    case VaultFails => FailState(p, s, step, "Vault reconciliation failed", k);
    case CallFails(landed) => CallFailState(p, s, landed, k);
    case FinishApplication(ready) => FinishState(p, s, ready, k);
    case _ => QuietState(p, s, step, k);
  }

  lemma CallFailState(p: Params, s: Sys, landed: bool, k: Key)
    requires s.loop.Deletion? || s.loop.Application?
    requires k in DoCallFails(p, s, landed).demos
    ensures StateIs(p, s, CallFails(landed), k, DoCallFails(p, s, landed).demos)
  {
    FailState(p, s, CallFails(landed),
              if s.loop.Deletion? then "Kubernetes deletion failed" else "Kubernetes reconciliation failed", k);
  }

  /** The message that goes with what touched the row. Failures carry abbreviated ones. */
  predicate MessageIs(s: Sys, step: Step, k: Key, message: string) {
    && (Deploys(s, step, k) ==> message == "deployment accepted")
    && (Destroys(s, step, k) ==> message == "deletion accepted")
    && (TakesUp(s, step, k) ==> message == if UpForDeletion(s) then "deleting resources" else "loading configuration")
    && (Finishes(s, step, k) ==> message == if step.ready then "deployment is ready" else "waiting for deployment readiness")
    && (step.CallFails? && InHand(s, k) && s.loop.Deletion? ==> message == "Kubernetes deletion failed")
  }

  lemma DeliveryMessage(s: Sys, request: DeployRequest, key: Key, id: string, hash: string, k: Key)
    ensures k in DoDeploy(s, request, hash).demos && Deploys(s, Deploy(request, hash), k) ==>
              DoDeploy(s, request, hash).demos[k].message == "deployment accepted"
    ensures k in DoDestroy(s, key, id, hash).demos && Destroys(s, Destroy(key, id, hash), k) ==>
              DoDestroy(s, key, id, hash).demos[k].message == "deletion accepted"
  {
  }

  lemma BeginMessage(s: Sys, k: Key)
    requires TakesUp(s, BeginRecord, k) && k in DoBeginRecord(s).demos
    ensures MessageIs(s, BeginRecord, k, DoBeginRecord(s).demos[k].message)
  {
  }

  lemma FinishMessage(s: Sys, ready: bool, k: Key)
    requires Finishes(s, FinishApplication(ready), k) && k in DoFinishApplication(s, ready).demos
    ensures MessageIs(s, FinishApplication(ready), k, DoFinishApplication(s, ready).demos[k].message)
  {
  }

  lemma FailMessage(p: Params, s: Sys, landed: bool, k: Key)
    requires InHand(s, k) && !s.loop.Lookup? && k in DoCallFails(p, s, landed).demos
    ensures MessageIs(s, CallFails(landed), k, DoCallFails(p, s, landed).demos[k].message)
  {
  }

  lemma LoopMessage(p: Params, s: Sys, step: Step, k: Key)
    requires Enabled(p, s, step) && k in Do(p, s, step).demos && Touches(p, s, step, k) && !step.Deploy? && !step.Destroy?
    ensures MessageIs(s, step, k, Do(p, s, step).demos[k].message)
  {
    match step
    case BeginRecord => BeginMessage(s, k);
    case CallFails(landed) => FailMessage(p, s, landed, k);
    case FinishApplication(ready) => FinishMessage(s, ready, k);
    case _ =>
  }

  lemma MessageAfter(p: Params, s: Sys, step: Step, k: Key)
    requires Enabled(p, s, step) && k in Do(p, s, step).demos && Touches(p, s, step, k)
    ensures MessageIs(s, step, k, Do(p, s, step).demos[k].message)
  {
    if step.Deploy? {
      DeliveryMessage(s, step.request, k, "", step.hash, k);
    } else if step.Destroy? {
      DeliveryMessage(s, DeployRequest("", 0, "", "", ""), step.key, step.id, step.hash, k);
    } else {
      LoopMessage(p, s, step, k);
    }
  }

  lemma ReadyByReport(p: Params, s: Sys, step: Step, k: Key)
    requires Enabled(p, s, step) && !(k in s.demos && s.demos[k].state == Ready)
    requires k in Do(p, s, step).demos && Do(p, s, step).demos[k].state == Ready
    ensures step == FinishApplication(true) && Finishes(s, step, k)
  {
    StateAfter(p, s, step, k);
  }

  /** Over a whole run: a row that is ready at the end, and was not at the start, was made so by a
      finished apply that reported its Deployment available. */
  lemma {:induction false} ReadyWasReported(p: Params, s: Sys, steps: seq<Step>, k: Key) returns (i: nat)
    requires ValidRun(p, s, steps) && !(k in s.demos && s.demos[k].state == Ready)
    requires k in Run(p, s, steps).demos && Run(p, s, steps).demos[k].state == Ready
    ensures i < |steps| && ValidRun(p, s, steps[..i]) && steps[i] == FinishApplication(true)
    ensures Finishes(Run(p, s, steps[..i]), steps[i], k)
    decreases |steps|
  {
    var s' := Do(p, s, steps[0]);
    if k in s'.demos && s'.demos[k].state == Ready {
      i := 0;
      ReadyByReport(p, s, steps[0], k);
    } else {
      var j := ReadyWasReported(p, s', steps[1..], k);
      i := j + 1;
      PrefixRun(p, s, steps, j);
    }
  }

  lemma PrefixRun(p: Params, s: Sys, steps: seq<Step>, j: nat)
    requires ValidRun(p, s, steps) && j + 1 < |steps| && ValidRun(p, Do(p, s, steps[0]), steps[1..][..j])
    ensures ValidRun(p, s, steps[..j + 1]) && Run(p, s, steps[..j + 1]) == Run(p, Do(p, s, steps[0]), steps[1..][..j])
  {
    assert steps[..j + 1][0] == steps[0] && steps[..j + 1][1..] == steps[1..][..j];
  }

  // ---------------------------------------------------------------- what a delivery leaves

  /** An effective deploy makes the demo pending, whatever its state was, and it is routed at once
      exactly if its row had a port before. */
  lemma DeployRestoresRoute(p: Params, s: Sys, request: DeployRequest, hash: string)
    requires Reachable(p, s) && Enabled(p, s, Deploy(request, hash)) && Deploys(s, Deploy(request, hash), DeployKey(request))
    ensures var s', k := Do(p, s, Deploy(request, hash)), DeployKey(request);
            && k in s'.demos && s'.demos[k].state == Pending
            && s'.demos[k].port == (if k in s.demos then s.demos[k].port else None)
            && s'.demos[k].vaultVersion == (if k in s.demos then s.demos[k].vaultVersion else None)
            && s'.demos[k].createdAt == (if k in s.demos then s.demos[k].createdAt else s.now)
            && (Routed(s', k) <==> k in s.demos && s.demos[k].port.Some?)
  {
    DeployLeaves(s, request, hash);
  }

  lemma DeployLeaves(s: Sys, request: DeployRequest, hash: string)
    requires Deploys(s, Deploy(request, hash), DeployKey(request))
    ensures var s', k := DoDeploy(s, request, hash), DeployKey(request);
            && k in s'.demos && s'.demos[k].state == Pending && s'.demos[k].desiredPresent
            && s'.demos[k].port == (if k in s.demos then s.demos[k].port else None)
            && s'.demos[k].vaultVersion == (if k in s.demos then s.demos[k].vaultVersion else None)
            && s'.demos[k].createdAt == (if k in s.demos then s.demos[k].createdAt else s.now)
  {
  }

  /** An effective destroy marks the row for deletion and keeps what was deployed. */
  lemma DestroyLeaves(p: Params, s: Sys, k: Key, id: string, hash: string)
    requires Enabled(p, s, Destroy(k, id, hash)) && Destroys(s, Destroy(k, id, hash), k)
    ensures var s' := Do(p, s, Destroy(k, id, hash));
            && k in s'.demos && s'.demos[k].state == DemoState.Deleting && !Routed(s', k)
            && (k in s.demos ==>
                  && s'.demos[k].port == s.demos[k].port && s'.demos[k].vaultVersion == s.demos[k].vaultVersion
                  && s'.demos[k].image == s.demos[k].image && s'.demos[k].commitSha == s.demos[k].commitSha
                  && s'.demos[k].createdAt == s.demos[k].createdAt && s'.demos[k].expiresAt == s.demos[k].expiresAt)
            && (k !in s.demos ==> s'.demos[k].port == None && s'.demos[k].image == None && s'.demos[k].expiresAt == s.now)
  {
  }
}
