/** The reconciliation loop as it is written (src/demo_controller/reconciler.py): a loop over a
    snapshot that changes the store and the cluster in place. Every execution is a run of the state
    machine, so each of its states is reachable there and all guarantees hold of it. */
module Reconciler {
  import opened Text
  import opened Models
  import opened Store
  import opened Kubernetes
  import opened ControlPlane
  import opened Guarantees
  import Vault
  import opened VaultSession

  /** A request that may arrive, any number of times, whenever the loop awaits. */
  datatype Arrival =
    | DeployArrival(request: DeployRequest, hash: string)
    | DestroyArrival(key: Key, id: string, hash: string)

  class ReconciliationLoop {
    const params: Params
    const store: DemoStore
    const kubernetes: KubernetesReconciler
    const vault: VaultClient
    const arrivals: seq<Arrival>
    var now: int
    var lastCompletedAt: Option<int>
    ghost var loop: Loop
    ghost var log: Log
    ghost var seen: Log
    ghost var start: int
    ghost var steps: seq<Step>

    ghost function View(): Sys
      reads this, store, kubernetes
    {
      Sys(now, store.demos, kubernetes.cluster, loop, log, seen)
    }

    /** The steps recorded so far are a run of the state machine that ends in the present state. */
    ghost predicate Traced()
      reads this, store, kubernetes
    {
      ValidRun(params, Initial(start), steps) && Run(params, Initial(start), steps) == View()
    }

    ghost predicate Valid()
      reads this, store, kubernetes
    {
      && Traced()
      && forall i | 0 <= i < |arrivals| ::
           match arrivals[i]
           case DeployArrival(request, hash) => Admissible(params, request) && !params.ofDestroy(hash)
           case DestroyArrival(key, _, hash) => Addressable(key) && params.ofDestroy(hash)
    }

    /** The Vault client between lookups. */
    ghost predicate VaultOk()
      reads vault
    {
      Vault.Inv(vault.View())
    }

    constructor (params: Params, suffix: string, vault: VaultClient, arrivals: seq<Arrival>, now: int)
      requires Vault.Inv(vault.View())
      requires forall i | 0 <= i < |arrivals| ::
                 match arrivals[i]
                 case DeployArrival(request, hash) => Admissible(params, request) && !params.ofDestroy(hash)
                 case DestroyArrival(key, _, hash) => Addressable(key) && params.ofDestroy(hash)
      ensures Valid() && View() == Initial(now) && Reachable(params, View())
      ensures this.params == params && this.vault == vault && VaultOk() && fresh(store) && fresh(kubernetes)
    {
      this.params, this.vault, this.arrivals, this.now, lastCompletedAt := params, vault, arrivals, now, None;
      var s := new DemoStore(suffix);
      var k := new KubernetesReconciler(map[]);
      store, kubernetes := s, k;
      loop, log, seen, start, steps := Resting, map[], map[], now, [];
    }

    /** Records a step that the state has just made. */
    ghost method Record(before: Sys, step: Step)
      requires ValidRun(params, Initial(start), steps) && Run(params, Initial(start), steps) == before
      requires Enabled(params, before, step) && View() == Do(params, before, step)
      modifies this`steps
      ensures Traced() && steps == old(steps) + [step]
    {
      Extend(params, Initial(start), steps, step);
      steps := steps + [step];
    }

    /** Time passes and requests arrive while the loop awaits. */
    method Await()
      requires Valid() && Awaiting(loop)
      modifies this`now, this`log, this`steps, store`demos
      ensures Valid()
    {
      var rounds: nat := *;
      while rounds > 0
        invariant Valid()
        decreases rounds
      {
        rounds := rounds - 1;
        ghost var before := View();
        var choice: int := *;
        if 0 <= choice < |arrivals| {
          match arrivals[choice]
          case DeployArrival(request, hash) =>
            var result := store.Deploy(request, hash, now);
            log := DoDeploy(before, request, hash).log;
            Record(before, Deploy(request, hash));
          case DestroyArrival(key, id, hash) =>
            var result := store.Destroy(key.repository, key.pr, id, hash, now);
            log := DoDestroy(before, key, id, hash).log;
            Record(before, Destroy(key, id, hash));
        } else {
          var seconds: int := *;
          now := if seconds > 0 then now + seconds else now;
          Record(before, Tick(now));
        }
      }
    }

    /** Records the completed calls of a cluster operation. */
    ghost method RecordCalls(before: Sys, done: nat)
      requires ValidRun(params, Initial(start), steps) && Run(params, Initial(start), steps) == before
      requires before.loop.Deletion? || before.loop.Application?
      requires CallsDone(before.loop) == 0 && done <= |Calls(params, before.loop)|
      modifies this`steps
      ensures ValidRun(params, Initial(start), steps)
      ensures Run(params, Initial(start), steps) == AfterCalls(params, before, done)
    {
      var n := 0;
      while n < done
        invariant n <= done && ValidRun(params, Initial(start), steps)
        invariant Run(params, Initial(start), steps) == AfterCalls(params, before, n)
      {
        CallStep(params, before, n);
        Extend(params, Initial(start), steps, CallSucceeds);
        steps := steps + [CallSucceeds];
        n := n + 1;
      }
    }

    /** `vault.project`: nothing if the lookup raises an exception. */
    method AskVault(repository: string) returns (answer: Option<(ProjectConfig, int)>)
      requires VaultOk()
      modifies vault
      ensures VaultOk()
      ensures answer.Some? ==> ValidConfig(answer.value.0)
    {
      ghost var before := vault.View();
      var found := vault.Project(repository);
      Vault.ProjectKeepsInv(vault.world, before, repository);
      Vault.ProjectConcludes(vault.world, before, repository);
      answer := if found.Returned? then Some((found.config, found.version)) else None;
    }

    method Fail(record: DemoRecord, message: string, ghost before: Sys, ghost step: Step)
      requires ValidRun(params, Initial(start), steps) && Run(params, Initial(start), steps) == before
      requires before.loop.Deletion? || before.loop.Lookup? || before.loop.Application?
      requires before.loop.record == record && Enabled(params, before, step)
      requires View() == before.(cluster := kubernetes.cluster)
      requires Do(params, before, step) == Failure(View(), record, message, before.loop.queue)
      modifies this`loop, this`steps, store`demos
      ensures Traced() && loop == Between(before.loop.queue)
      ensures record.Id() in store.demos ==> store.demos[record.Id()].state == Failed
    {
      store.Update(record.Id(), Failed, message, None, None, now);
      loop := Between(before.loop.queue);
      Record(before, step);
    }

    /** `reconcile`: afterwards the row is gone, ready, waiting for readiness, or failed. */
    method Reconcile(record: DemoRecord)
      requires Valid() && VaultOk() && loop.Between? && loop.queue != [] && loop.queue[0] == record
      modifies this`now, this`loop, this`log, this`steps, store`demos, kubernetes, vault
      ensures Valid() && VaultOk() && loop == Between(old(loop).queue[1..])
      ensures record.Id() in store.demos ==> store.demos[record.Id()].state in {Ready, Reconciling, Failed}
    {
      if !record.desiredPresent || record.expiresAt <= now {
        DeleteDemo(record);
      } else {
        ApplyDemo(record);
      }
    }

    method DeleteDemo(record: DemoRecord)
      requires Valid() && loop.Between? && loop.queue != [] && loop.queue[0] == record
      requires Unwanted(record, now)
      modifies this`now, this`loop, this`log, this`steps, store`demos, kubernetes
      ensures Valid() && loop == Between(old(loop).queue[1..])
      ensures record.Id() in store.demos ==> store.demos[record.Id()].state == Failed
    {
      ghost var rest, s := loop.queue[1..], View();
      store.Update(record.Id(), DemoState.Deleting, "deleting resources", None, None, now);
      loop := Deletion(record, 0, rest);
      Record(s, BeginRecord);
      Await();
      s := View();
      var ok, done, landed := kubernetes.Delete(params.name(record.Id()));
      if !ok {
        FailCalls(record, "Kubernetes deletion failed", s, done, landed);
        return;
      }
      CompleteCalls(s, done);
      FinishDelete(record, rest);
    }

    method FinishDelete(record: DemoRecord, ghost rest: seq<DemoRecord>)
      requires Valid() && loop == Deletion(record, 4, rest)
      modifies this`now, this`loop, this`log, this`steps, store`demos
      ensures Valid() && loop == Between(rest)
      ensures record.Id() !in store.demos && record.Id() !in log
    {
      Await();
      ghost var s := View();
      store.Delete(record.Id());
      log := log - {record.Id()};
      loop := Between(rest);
      Record(s, FinishDeletion);
    }

    method ApplyDemo(record: DemoRecord)
      requires Valid() && VaultOk() && loop.Between? && loop.queue != [] && loop.queue[0] == record
      requires !Unwanted(record, now)
      modifies this`now, this`loop, this`log, this`steps, store`demos, kubernetes, vault
      ensures Valid() && VaultOk() && loop == Between(old(loop).queue[1..])
      ensures record.Id() in store.demos ==> store.demos[record.Id()].state in {Ready, Reconciling, Failed}
    {
      ghost var rest, s := loop.queue[1..], View();
      store.Update(record.Id(), Reconciling, "loading configuration", None, None, now);
      loop := Lookup(record, rest);
      Record(s, BeginRecord);
      Await();
      var answer := AskVault(record.repository);
      ApplyAnswer(record, answer, rest);
    }

    /** The rest of the `try` block, once Vault has answered or failed. */
    method ApplyAnswer(record: DemoRecord, answer: Option<(ProjectConfig, int)>, ghost rest: seq<DemoRecord>)
      requires Valid() && loop == Lookup(record, rest)
      requires answer.Some? ==> ValidConfig(answer.value.0)
      modifies this`now, this`loop, this`log, this`steps, store`demos, kubernetes
      ensures Valid() && loop == Between(rest)
      ensures record.Id() in store.demos ==> store.demos[record.Id()].state in {Ready, Reconciling, Failed}
    {
      ghost var s := View();
      if answer.None? {
        Fail(record, "Vault reconciliation failed", s, VaultFails);
        return;
      }
      var (project, version) := answer.value;
      if !NamespaceAllows(params, record, project) {
        Fail(record, "Kubernetes reconciliation failed (ValueError)", s, VaultAnswers(project, version));
        return;
      }
      loop := Application(record, project, version, 0, rest);
      Record(s, VaultAnswers(project, version));
      Await();
      ApplyRendered(record, project, version, rest);
    }

    method ApplyRendered(record: DemoRecord, project: ProjectConfig, version: int, ghost rest: seq<DemoRecord>)
      requires Valid() && loop == Application(record, project, version, 0, rest)
      modifies this`now, this`loop, this`log, this`steps, store`demos, kubernetes
      ensures Valid() && loop == Between(rest)
      ensures record.Id() in store.demos ==> store.demos[record.Id()].state in {Ready, Reconciling, Failed}
    {
      ghost var s := View();
      var rendered := Render(params.place, params.name(record.Id()), record, project, version);
      var ready, done, landed, seen := kubernetes.Apply(rendered);
      if ready.None? {
        FailCalls(record, "Kubernetes reconciliation failed", s, done, landed);
        return;
      }
      CompleteCalls(s, done);
      FinishApply(record, project, version, ready.value, rest);
    }

    /** The trace and the loop after `done` calls that succeeded. */
    ghost method CompleteCalls(before: Sys, done: nat)
      requires ValidRun(params, Initial(start), steps) && Run(params, Initial(start), steps) == before
      requires before.loop.Deletion? || before.loop.Application?
      requires CallsDone(before.loop) == 0 && done <= |Calls(params, before.loop)|
      requires View() == before.(cluster := Exec(before.cluster, Calls(params, before.loop)[..done]))
      modifies this`loop, this`steps
      ensures Traced() && View() == AfterCalls(params, before, done)
    {
      RecordCalls(before, done);
      loop := AfterCalls(params, before, done).loop;
    }

    /** The failing exit of a cluster operation, `done` calls into it. */
    method FailCalls(record: DemoRecord, message: string, ghost before: Sys, ghost done: nat, ghost landed: bool)
      requires ValidRun(params, Initial(start), steps) && Run(params, Initial(start), steps) == before
      requires before.loop.Deletion? || before.loop.Application?
      requires CallsDone(before.loop) == 0 && before.loop.record == record
      requires done + (if landed then 1 else 0) <= |Calls(params, before.loop)|
      requires before.loop.Deletion? ==> done < 4
      requires message == if before.loop.Deletion? then "Kubernetes deletion failed" else "Kubernetes reconciliation failed"
      requires View() == before.(cluster := Exec(before.cluster, Calls(params, before.loop)[..done + if landed then 1 else 0]))
      modifies this`loop, this`steps, store`demos
      ensures Traced() && loop == Between(before.loop.queue)
      ensures record.Id() in store.demos ==> store.demos[record.Id()].state == Failed
    {
      RecordCalls(before, done);
      ghost var s := AfterCalls(params, before, done);
      FailedCall(params, before, done, landed);
      loop := s.loop;
      Fail(record, message, s, CallFails(landed));
    }

    method FinishApply(record: DemoRecord, project: ProjectConfig, version: int, ready: bool, ghost rest: seq<DemoRecord>)
      requires Valid() && loop.Application? && loop == Application(record, project, version, |Calls(params, loop)|, rest)
      modifies this`now, this`loop, this`log, this`steps, store`demos
      ensures Valid() && loop == Between(rest)
      ensures record.Id() in store.demos ==> store.demos[record.Id()].state == if ready then Ready else Reconciling
    {
      Await();
      ghost var s := View();
      store.Update(record.Id(), if ready then Ready else Reconciling,
                   if ready then "deployment is ready" else "waiting for deployment readiness",
                   Some(version), Some(project.port), now);
      loop := Between(rest);
      Record(s, FinishApplication(ready));
    }

    /** `list_reconcilable`: the pass begins. */
    method TakeSnapshot() returns (rows: seq<DemoRecord>)
      requires Valid() && loop == Resting
      modifies this`loop, this`seen, this`steps
      ensures Valid() && loop == Between(rows)
      ensures IsSelection(rows, store.demos, (row: DemoRecord) => Listed(row.state))
    {
      ghost var s := View();
      assert WellKeyed(store.demos) by { ReachableKeys(); }
      rows := store.ListReconcilable();
      loop, seen := Between(rows), log;
      Record(s, BeginPass(rows));
    }

    ghost method Rest()
      requires Valid() && loop == Between([])
      modifies this`loop, this`steps
      ensures Valid() && loop == Resting
    {
      var s := View();
      loop := Resting;
      Record(s, EndPass);
    }

    /** One turn of `run`: every row of one snapshot, in its order. */
    method Pass()
      requires Valid() && VaultOk() && loop == Resting
      modifies this`now, this`lastCompletedAt, this`loop, this`log, this`seen, this`steps, store`demos, kubernetes, vault
      ensures Valid() && VaultOk() && loop == Resting && lastCompletedAt == Some(now)
      ensures Reachable(params, View())
    {
      var rows := TakeSnapshot();
      for i := 0 to |rows|
        invariant Valid() && VaultOk() && loop == Between(rows[i..])
      {
        assert rows[i..][0] == rows[i] && rows[i..][1..] == rows[i + 1..];
        Reconcile(rows[i]);
      }
      Rest();
      lastCompletedAt := Some(now);
      ReachableKeys();
    }

    lemma ReachableKeys()
      requires Valid()
      ensures Reachable(params, View()) && WellKeyed(store.demos)
    {
      assert Reachable(params, View());
      ReachableInv(params, View());
    }

    /** `run`: passes with a wait in between, until `stop`; then the Vault client is closed, and every
        pool it ever had has been closed exactly once. An injected client is left open. */
    method RunLoop()
      requires Valid() && VaultOk() && loop == Resting
      modifies this`now, this`lastCompletedAt, this`loop, this`log, this`seen, this`steps, store`demos, kubernetes, vault
      ensures Valid() && loop == Resting
      ensures if vault.ownsClient then |vault.closed| == vault.created && forall i | 0 <= i < |vault.closed| :: vault.closed[i] == i
              else vault.closed == []
    {
      var passes: nat := *;
      while passes > 0
        invariant Valid() && VaultOk() && loop == Resting
        decreases passes
      {
        Pass();
        Await();
        passes := passes - 1;
      }
      vault.Close();
    }
  }

  /** A call that fails after `done` others, having taken effect or not. */
  lemma FailedCall(p: Params, s: Sys, done: nat, landed: bool)
    requires s.loop.Deletion? || s.loop.Application?
    requires done + (if landed then 1 else 0) <= |Calls(p, s.loop)|
    requires s.loop.Deletion? ==> done < 4
    ensures Enabled(p, AfterCalls(p, s, done), CallFails(landed))
    ensures Do(p, AfterCalls(p, s, done), CallFails(landed)) ==
            Failure(s.(cluster := Exec(s.cluster, Calls(p, s.loop)[..done + if landed then 1 else 0])), s.loop.record,
                    if s.loop.Deletion? then "Kubernetes deletion failed" else "Kubernetes reconciliation failed",
                    s.loop.queue)
  {
    assert Calls(p, AfterCalls(p, s, done).loop) == Calls(p, s.loop);
    if landed { ExecStep(s.cluster, Calls(p, s.loop), done); }
  }
}
