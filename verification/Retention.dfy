/** What stays in place for a demo that was ready once: its route and its resources, through failed
    replacements, Vault failures, redeploys and crashes; and which port the route leads to. */
module Retention {
  import opened Text
  import opened Models
  import opened Store
  import opened Kubernetes
  import opened ControlPlane
  import opened Safety
  import opened Guarantees

  /** When a record is routed. Its expiry is no part of it: an expired demo stays routed until the
      delete branch takes it up, and is routed again if the deletion fails. */
  lemma RoutedIff(p: Params, s: Sys, k: Key)
    requires Reachable(p, s)
    ensures Routed(s, k) <==> k in s.demos && s.demos[k].desiredPresent && s.demos[k].port.Some? && !s.demos[k].state.Deleting?
  {
    if k in s.demos {
      assert RowOk(p, s.demos[k]) by { ReachableInv(p, s); }
    }
  }

  // ---------------------------------------------------------------- what lands in the cluster

  /** The change that this step makes to the cluster. */
  function LandedOp(p: Params, s: Sys, step: Step): Option<Op> {
    if CallPending(p, s.loop) && (step.CallSucceeds? || (step.CallFails? && step.landed) || (step.Crash? && step.landed))
    then Some(Calls(p, s.loop)[CallsDone(s.loop)])
    else None
  }

  predicate MayLand(step: Step) {
    step.CallSucceeds? || step.CallFails? || step.Crash?
  }

  lemma CallLands(p: Params, s: Sys, step: Step)
    requires Enabled(p, s, step) && MayLand(step)
    ensures Do(p, s, step).cluster == Landed(p, s, if step.CallSucceeds? then true else step.landed)
  {
    if step.CallFails? { assert DoCallFails(p, s, step.landed).cluster == Landed(p, s, step.landed); }
  }

  lemma NothingLands(p: Params, s: Sys, step: Step)
    requires Enabled(p, s, step) && !MayLand(step)
    ensures Do(p, s, step).cluster == s.cluster
  {
    match step
    case Deploy(_, _) => ArrivalKeepsLoop(p, s, step);
    case Destroy(_, _, _) => ArrivalKeepsLoop(p, s, step);
    case BeginRecord => assert DoBeginRecord(s).cluster == s.cluster;
    case VaultAnswers(project, version) => assert DoVaultAnswers(p, s, project, version).cluster == s.cluster;
    case FinishApplication(ready) => assert DoFinishApplication(s, ready).cluster == s.cluster;
    case _ =>
  }

  lemma ClusterStep(p: Params, s: Sys, step: Step)
    requires Enabled(p, s, step)
    ensures Do(p, s, step).cluster == match LandedOp(p, s, step) case None => s.cluster case Some(op) => AfterOp(s.cluster, op)
  {
    if MayLand(step) { CallLands(p, s, step); } else { NothingLands(p, s, step); }
  }

  /** An apply removes optional resources only. */
  lemma ApplyRemoves(r: Rendered, i: nat)
    requires i < |ApplyOps(r)| && ApplyOps(r)[i].Remove?
    ensures ApplyOps(r)[i].id.kind.ConfigMap? || ApplyOps(r)[i].id.kind.Secret?
  {
    assert ApplyOps(r)[i] == Stale(r)[i - |r.All()|];
  }

  /** Deployments and Services are removed by the delete branch alone. */
  lemma RemovalsAreDeletions(p: Params, s: Sys, id: ResourceId)
    requires CallPending(p, s.loop) && Calls(p, s.loop)[CallsDone(s.loop)] == Remove(id)
    requires id.kind.Deployment? || id.kind.Service?
    ensures s.loop.Deletion? && p.name(s.loop.record.Id()) == id.name
  {
    if s.loop.Application? {
      ApplyRemoves(Render(p.place, p.name(s.loop.record.Id()), s.loop.record, s.loop.project, s.loop.version), s.loop.done);
    }
  }

  // ---------------------------------------------------------------- retained resources

  /** The Deployment and the Service of the demo are in the cluster. */
  predicate InPlace(p: Params, s: Sys, k: Key) {
    ResourceId(Deployment, p.name(k)) in s.cluster && ResourceId(Service, p.name(k)) in s.cluster
  }

  /** No other stored demo has this one's resource name. */
  predicate Alone(p: Params, s: Sys, k: Key) {
    forall l | l in s.demos && p.name(l) == p.name(k) :: l == k
  }

  predicate BeingDeleted(s: Sys, k: Key) {
    s.loop.Deletion? && s.loop.record.Id() == k
  }

  lemma HandledIsStored(p: Params, s: Sys)
    requires Reachable(p, s) && Jobs(s.loop) != []
    ensures Jobs(s.loop)[0].Id() in s.demos
  {
    ReachableInv(p, s);
    assert JobOk(p, s, Jobs(s.loop)[0]);
  }

  /** A resource of these kinds disappears exactly when its removal by the delete branch lands. */
  lemma DisappearsIff(p: Params, s: Sys, step: Step, id: ResourceId)
    requires Enabled(p, s, step) && id in s.cluster && (id.kind.Deployment? || id.kind.Service?)
    ensures id !in Do(p, s, step).cluster
            <==> s.loop.Deletion? && p.name(s.loop.record.Id()) == id.name && LandedOp(p, s, step) == Some(Remove(id))
  {
    ClusterStep(p, s, step);
    if LandedOp(p, s, step) == Some(Remove(id)) { RemovalsAreDeletions(p, s, id); }
  }

  lemma StepKeepsInPlace(p: Params, s: Sys, step: Step, k: Key)
    requires Reachable(p, s) && Enabled(p, s, step) && InPlace(p, s, k) && Alone(p, s, k) && !BeingDeleted(s, k)
    ensures InPlace(p, Do(p, s, step), k)
  {
    DisappearsIff(p, s, step, ResourceId(Deployment, p.name(k)));
    DisappearsIff(p, s, step, ResourceId(Service, p.name(k)));
    if s.loop.Deletion? { HandledIsStored(p, s); }
  }

  lemma DeletionStartsByCutting(p: Params, s: Sys, step: Step, k: Key)
    requires Enabled(p, s, step) && !BeingDeleted(s, k) && !CutsRoute(s, step, k)
    ensures !BeingDeleted(Do(p, s, step), k)
  {
    match step
    case Deploy(_, _) => ArrivalKeepsLoop(p, s, step);
    case Destroy(_, _, _) => ArrivalKeepsLoop(p, s, step);
    case BeginRecord => assert !BeingDeleted(DoBeginRecord(s), k);
    case CallSucceeds => assert !BeingDeleted(s.(loop := Advance(s.loop)), k);
    case VaultAnswers(project, version) => assert !DoVaultAnswers(p, s, project, version).loop.Deletion?;
    case _ =>
  }

  /** Along the run no other stored demo has this one's name, and no step cuts its route. */
  ghost predicate Undisturbed(p: Params, s: Sys, steps: seq<Step>, k: Key)
    requires ValidRun(p, s, steps)
    decreases |steps|
  {
    Alone(p, s, k) && (steps == [] || (!CutsRoute(s, steps[0], k) && Undisturbed(p, Do(p, s, steps[0]), steps[1..], k)))
  }

  lemma {:induction false} PlaceAndRouteKept(p: Params, s: Sys, steps: seq<Step>, k: Key)
    requires Reachable(p, s) && ValidRun(p, s, steps) && Undisturbed(p, s, steps, k)
    requires Routed(s, k) && InPlace(p, s, k) && !BeingDeleted(s, k)
    ensures Routed(Run(p, s, steps), k) && InPlace(p, Run(p, s, steps), k)
    decreases |steps|
  {
    if steps != [] {
      RouteCutIff(p, s, steps[0], k);
      StepKeepsInPlace(p, s, steps[0], k);
      DeletionStartsByCutting(p, s, steps[0], k);
      ReachableStep(p, s, steps[0]);
      PlaceAndRouteKept(p, Do(p, s, steps[0]), steps[1..], k);
    }
  }

  lemma ReachableStep(p: Params, s: Sys, step: Step)
    requires Reachable(p, s) && Enabled(p, s, step)
    ensures Reachable(p, Do(p, s, step))
  {
    var start: int, steps: seq<Step> :| ValidRun(p, Initial(start), steps) && Run(p, Initial(start), steps) == s;
    Extend(p, Initial(start), steps, step);
  }

  lemma FinishedInPlace(p: Params, s: Sys, ready: bool)
    requires Reachable(p, s) && Enabled(p, s, FinishApplication(ready))
    requires s.loop.record.Id() in s.demos && s.demos[s.loop.record.Id()].desiredPresent
    ensures var s', k := Do(p, s, FinishApplication(ready)), s.loop.record.Id();
            Reachable(p, s') && Routed(s', k) && InPlace(p, s', k) && !BeingDeleted(s', k)
  {
    var k := s.loop.record.Id();
    WorkloadAsConfigured(p, s);
    ReachableStep(p, s, FinishApplication(ready));
    RoutedIff(p, Do(p, s, FinishApplication(ready)), k);
  }

  /** Once an apply of a wanted demo has finished, its route, its Deployment and its Service stay until
      the route is cut: failed replacements, Vault failures, redeploys and crashes retain all three. */
  lemma ResourcesRetained(p: Params, s: Sys, ready: bool, steps: seq<Step>)
    requires Reachable(p, s) && Enabled(p, s, FinishApplication(ready))
    requires s.loop.record.Id() in s.demos && s.demos[s.loop.record.Id()].desiredPresent
    requires ValidRun(p, Do(p, s, FinishApplication(ready)), steps)
    requires Undisturbed(p, Do(p, s, FinishApplication(ready)), steps, s.loop.record.Id())
    ensures var s', k := Run(p, Do(p, s, FinishApplication(ready)), steps), s.loop.record.Id(); Routed(s', k) && InPlace(p, s', k)
  {
    FinishedInPlace(p, s, ready);
    PlaceAndRouteKept(p, Do(p, s, FinishApplication(ready)), steps, s.loop.record.Id());
  }

  // ---------------------------------------------------------------- the port of the route

  /** The Service has the port that the row gives to the router. */
  predicate PortsAgree(p: Params, s: Sys, k: Key) {
    var id := ResourceId(Service, p.name(k));
    k in s.demos && id in s.cluster && s.cluster[id].ServiceOf? && Some(s.cluster[id].port) == s.demos[k].port
  }

  predicate Finishes(s: Sys, step: Step, k: Key) {
    step.FinishApplication? && s.loop.Application? && s.loop.record.Id() == k
  }

  lemma FinishedPortsAgree(p: Params, s: Sys, ready: bool)
    requires Reachable(p, s) && Enabled(p, s, FinishApplication(ready)) && s.loop.record.Id() in s.demos
    ensures PortsAgree(p, Do(p, s, FinishApplication(ready)), s.loop.record.Id())
  {
    WorkloadAsConfigured(p, s);
  }

  /** Whether the ports agree after a step: always when an apply of the demo finishes; if a new Service
      lands, exactly if it has the row's port; and otherwise as before. */
  lemma PortsAgreeIff(p: Params, s: Sys, step: Step, k: Key)
    requires Reachable(p, s) && Enabled(p, s, step) && k in s.demos && k in Do(p, s, step).demos
    requires ResourceId(Service, p.name(k)) in s.cluster && ResourceId(Service, p.name(k)) in Do(p, s, step).cluster
    ensures PortsAgree(p, Do(p, s, step), k)
            <==> (Finishes(s, step, k)
                  || match LandedOp(p, s, step)
                     case Some(Put(r)) => if r.Id() == ResourceId(Service, p.name(k)) then Some(r.port) == s.demos[k].port else PortsAgree(p, s, k)
                     case _ => PortsAgree(p, s, k))
  {
    if Finishes(s, step, k) {
      FinishedPortsAgree(p, s, step.ready);
    } else {
      ClusterStep(p, s, step);
      if Do(p, s, step).demos[k].port != s.demos[k].port { PortOnlyFromApply(p, s, step, k); }
    }
  }
}
