/** The control plane as one state machine: API deliveries, the reconciliation loop, the cluster
    and the clock. The API runs on the loop's own event loop, so a delivery can arrive only while
    `reconcile` awaits the cluster or Vault, or between passes; the loop then goes on with the
    record it read when the pass began (src/demo_controller/reconciler.py, store.py, kubernetes.py). */
module ControlPlane {
  import opened Text
  import opened Models
  import opened Store
  import opened Kubernetes

  /** What stays fixed in a run: the resource names, where resources go, the image registry, and
      which request hashes belong to destroy bodies: no body is valid for both handlers
      (src/demo_controller/models.py), so a hash tells which kind of request it stands for. */
  datatype Params = Params(name: Key -> string, place: Place, registry: string, ofDestroy: string -> bool)

  /** Where the reconciliation loop is. `done` counts the finished calls of `delete` or `apply`. */
  datatype Loop =
    | Resting
    | Between(queue: seq<DemoRecord>)
    | Deletion(record: DemoRecord, done: nat, queue: seq<DemoRecord>)
    | Lookup(record: DemoRecord, queue: seq<DemoRecord>)
    | Application(record: DemoRecord, project: ProjectConfig, version: int, done: nat, queue: seq<DemoRecord>)

  /** A delivery the store accepted, as history remembers it. */
  datatype Delivery =
    | Deployed(commitSha: string, image: string, id: string, hash: string, at: int)
    | Destroyed(id: string, hash: string, at: int)

  type Log = map<Key, seq<Delivery>>

  /** `log` holds, for each stored key, the deliveries accepted since its row was last deleted;
      `seen` is the log when the current pass took its snapshot. Both are history, not state. */
  datatype Sys = Sys(now: int, demos: Demos, cluster: Cluster, loop: Loop, log: Log, seen: Log)

  datatype Step =
    | Tick(now: int)
    | Deploy(request: DeployRequest, hash: string)
    | Destroy(key: Key, id: string, hash: string)
    | BeginPass(rows: seq<DemoRecord>)
    | EndPass
    | BeginRecord
    | VaultAnswers(project: ProjectConfig, version: int)
    | VaultFails
    | CallSucceeds
    | CallFails(landed: bool)
    | FinishDeletion
    | FinishApplication(ready: bool)
    | Crash(landed: bool)

  // ---------------------------------------------------------------- steps

  predicate Awaiting(loop: Loop) {
    !loop.Between?
  }

  /** The calls of the current `delete` or `apply`. */
  function Calls(p: Params, loop: Loop): seq<Op> {
    match loop
    case Deletion(record, _, _) => DeleteOps(p.name(record.Id()))
    case Application(record, project, version, _, _) =>
      ApplyOps(Render(p.place, p.name(record.Id()), record, project, version))
    case _ => []
  }

  function CallsDone(loop: Loop): nat {
    if loop.Deletion? || loop.Application? then loop.done else 0
  }

  predicate CallPending(p: Params, loop: Loop) {
    CallsDone(loop) < |Calls(p, loop)|
  }

  /** The cluster after the pending call, if it took effect. */
  function Landed(p: Params, s: Sys, landed: bool): Cluster {
    if landed && CallPending(p, s.loop) then AfterOp(s.cluster, Calls(p, s.loop)[CallsDone(s.loop)]) else s.cluster
  }

  /** The branch of `reconcile` that deletes. */
  predicate Unwanted(record: DemoRecord, now: int) {
    !record.desiredPresent || record.expiresAt <= now
  }

  /** `if project.config.image_namespace` and the prefix test behind it. */
  predicate NamespaceAllows(p: Params, record: DemoRecord, project: ProjectConfig) {
    (project.imageNamespace.Some? && project.imageNamespace.value != "") ==>
      HasImagePrefix(p.registry, Lower(project.imageNamespace.value), if record.image.Some? then record.image.value else "")
  }

  /** A request that passed the validators and the handler's registry check. */
  ghost predicate Admissible(p: Params, request: DeployRequest) {
    ValidDeploy(request) && HasImagePrefix(p.registry, request.repository, request.image)
  }

  /** The repository and number of a valid destroy request. */
  ghost predicate Addressable(key: Key) {
    ValidRepository(key.repository) && 1 <= key.pr <= MAX_PR
  }

  function Remember(log: Log, key: Key, delivery: Delivery): Log {
    log[key := (if key in log then log[key] else []) + [delivery]]
  }

  function SetState(s: Sys, key: Key, state: DemoState, message: string): Demos {
    UpdateState(s.demos, key, state, message, None, None, s.now)
  }

  ghost predicate Enabled(p: Params, s: Sys, step: Step) {
    match step
    case Tick(now) => s.now <= now
    case Deploy(request, hash) => Awaiting(s.loop) && Admissible(p, request) && !p.ofDestroy(hash)
    case Destroy(key, _, hash) => Awaiting(s.loop) && Addressable(key) && p.ofDestroy(hash)
    case BeginPass(rows) => s.loop.Resting? && IsSelection(rows, s.demos, (row: DemoRecord) => Listed(row.state))
    case EndPass => s.loop == Between([])
    case BeginRecord => s.loop.Between? && s.loop.queue != []
    case VaultAnswers(project, _) => s.loop.Lookup? && ValidConfig(project)
    case VaultFails => s.loop.Lookup?
    case CallSucceeds => CallPending(p, s.loop)
    case CallFails(landed) =>
      CallPending(p, s.loop) || (s.loop.Application? && s.loop.done == |Calls(p, s.loop)| && !landed)
    case FinishDeletion => s.loop.Deletion? && s.loop.done == 4
    case FinishApplication(_) => s.loop.Application? && s.loop.done == |Calls(p, s.loop)|
    case Crash(landed) => landed ==> CallPending(p, s.loop)
  }

  function DoDeploy(s: Sys, request: DeployRequest, hash: string): Sys {
    var key := DeployKey(request);
    if Judge(s.demos, key, request.deliveryId, hash).Conflict? then s
    else s.(demos := UpsertDeploy(s.demos, request, hash, s.now),
            log := Remember(s.log, key, Deployed(request.commitSha, request.image, request.deliveryId, hash, s.now)))
  }

  function DoDestroy(s: Sys, key: Key, id: string, hash: string): Sys {
    if Judge(s.demos, key, id, hash).Conflict? then s
    else s.(demos := RequestDestroy(s.demos, key, id, hash, s.now),
            log := Remember(s.log, key, Destroyed(id, hash, s.now)))
  }

  /** `reconcile` up to its first await. */
  function DoBeginRecord(s: Sys): Sys
    requires s.loop.Between? && s.loop.queue != []
  {
    var record, rest := s.loop.queue[0], s.loop.queue[1..];
    if Unwanted(record, s.now) then
      s.(demos := SetState(s, record.Id(), DemoState.Deleting, "deleting resources"), loop := Deletion(record, 0, rest))
    else
      s.(demos := SetState(s, record.Id(), Reconciling, "loading configuration"), loop := Lookup(record, rest))
  }

  function Failure(s: Sys, record: DemoRecord, message: string, rest: seq<DemoRecord>): Sys {
    s.(demos := SetState(s, record.Id(), Failed, message), loop := Between(rest))
  }

  function DoVaultAnswers(p: Params, s: Sys, project: ProjectConfig, version: int): Sys
    requires s.loop.Lookup?
  {
    if NamespaceAllows(p, s.loop.record, project) then
      s.(loop := Application(s.loop.record, project, version, 0, s.loop.queue))
    else
      Failure(s, s.loop.record, "Kubernetes reconciliation failed (ValueError)", s.loop.queue)
  }

  function Advance(loop: Loop): Loop {
    match loop
    case Deletion(record, done, queue) => Deletion(record, done + 1, queue)
    case Application(record, project, version, done, queue) => Application(record, project, version, done + 1, queue)
    case other => other
  }

  function DoCallFails(p: Params, s: Sys, landed: bool): Sys
    requires s.loop.Deletion? || s.loop.Application?
  {
    var s' := s.(cluster := Landed(p, s, landed));
    Failure(s', s.loop.record,
            if s.loop.Deletion? then "Kubernetes deletion failed" else "Kubernetes reconciliation failed",
            s.loop.queue)
  }

  function DoFinishApplication(s: Sys, ready: bool): Sys
    requires s.loop.Application?
  {
    s.(demos := UpdateState(s.demos, s.loop.record.Id(), if ready then Ready else Reconciling,
                            if ready then "deployment is ready" else "waiting for deployment readiness",
                            Some(s.loop.version), Some(s.loop.project.port), s.now),
       loop := Between(s.loop.queue))
  }

  ghost function Do(p: Params, s: Sys, step: Step): Sys
    requires Enabled(p, s, step)
  {
    match step
    case Tick(now) => s.(now := now)
    case Deploy(request, hash) => DoDeploy(s, request, hash)
    case Destroy(key, id, hash) => DoDestroy(s, key, id, hash)
    case BeginPass(rows) => s.(loop := Between(rows), seen := s.log)
    case EndPass => s.(loop := Resting)
    case BeginRecord => DoBeginRecord(s)
    case VaultAnswers(project, version) => DoVaultAnswers(p, s, project, version)
    case VaultFails => Failure(s, s.loop.record, "Vault reconciliation failed", s.loop.queue)
    case CallSucceeds =>
      s.(cluster := Landed(p, s, true), loop := Advance(s.loop))
    case CallFails(landed) => DoCallFails(p, s, landed)
    case FinishDeletion =>
      s.(demos := DeleteRecord(s.demos, s.loop.record.Id()), log := s.log - {s.loop.record.Id()},
         loop := Between(s.loop.queue))
    case FinishApplication(ready) => DoFinishApplication(s, ready)
    case Crash(landed) => s.(cluster := Landed(p, s, landed), loop := Resting)
  }

  ghost predicate ValidRun(p: Params, s: Sys, steps: seq<Step>)
    decreases |steps|
  {
    steps == [] || (Enabled(p, s, steps[0]) && ValidRun(p, Do(p, s, steps[0]), steps[1..]))
  }

  ghost function Run(p: Params, s: Sys, steps: seq<Step>): Sys
    requires ValidRun(p, s, steps)
    decreases |steps|
  {
    if steps == [] then s else Run(p, Do(p, s, steps[0]), steps[1..])
  }

  /** A new database and no resources. */
  function Initial(now: int): Sys {
    Sys(now, map[], map[], Resting, map[], map[])
  }

  // ---------------------------------------------------------------- what the deliveries ask for

  /** The columns that only the API writes. */
  datatype Desired = Desired(
    present: bool, commitSha: Option<string>, image: Option<string>,
    deliveryId: string, requestHash: string, createdAt: int, expiresAt: int)

  function DesiredOf(row: DemoRecord): Desired {
    Desired(row.desiredPresent, row.commitSha, row.image, row.deliveryId, row.requestHash, row.createdAt, row.expiresAt)
  }

  /** A delivery whose ID is that of the previous accepted one is a repeat; all others count. */
  predicate Effective(log: seq<Delivery>, i: nat)
    requires i < |log|
  {
    i == 0 || log[i].id != log[i - 1].id
  }

  predicate EffectiveDeploy(log: seq<Delivery>, i: nat)
    requires i < |log|
  {
    log[i].Deployed? && Effective(log, i)
  }

  /** The position of the last effective delivery. */
  function LastEffective(log: seq<Delivery>): (i: nat)
    requires log != []
    ensures i < |log| && Effective(log, i)
    ensures forall j | i < j < |log| :: !Effective(log, j)
  {
    if Effective(log, |log| - 1) then |log| - 1
    else
      var i := LastEffective(log[..|log| - 1]);
      assert forall j | 0 <= j < |log| - 1 :: Effective(log[..|log| - 1], j) == Effective(log, j);
      i
  }

  /** The position of the last effective deploy, or -1. */
  function LastDeploy(log: seq<Delivery>): (i: int)
    ensures -1 <= i < |log|
    ensures i >= 0 ==> EffectiveDeploy(log, i)
    ensures forall j | i < j < |log| :: j < 0 || !EffectiveDeploy(log, j)
  {
    if log == [] then -1
    else if EffectiveDeploy(log, |log| - 1) then |log| - 1
    else
      var i := LastDeploy(log[..|log| - 1]);
      assert forall j | 0 <= j < |log| - 1 :: EffectiveDeploy(log[..|log| - 1], j) == EffectiveDeploy(log, j);
      i
  }

  /** What a log of deliveries asks for: presence, delivery and hash come from the last effective
      delivery; commit, image and lifetime from the last effective deploy; creation from the first. */
  function Wanted(log: seq<Delivery>): Desired
    requires log != []
  {
    var last, deploy := log[LastEffective(log)], LastDeploy(log);
    Desired(last.Deployed?,
            if deploy >= 0 then Some(log[deploy].commitSha) else None,
            if deploy >= 0 then Some(log[deploy].image) else None,
            last.id, last.hash, log[0].at,
            if deploy >= 0 then log[deploy].at + LIFETIME else log[0].at)
  }
}
