/** Convergence: with no deliveries and healthy dependencies, one pass over a fresh snapshot brings
    every record and the cluster to what the deliveries ask for, and every such pass completes. */
module Convergence {
  import opened Text
  import opened Naming
  import opened Models
  import opened Store
  import opened Kubernetes
  import opened ControlPlane
  import opened Safety
  import opened Guarantees

  /** What Vault answers for a repository: a configuration and its version. */
  type Vault = string -> (ProjectConfig, int)

  /** A step of a pass in which Vault and the cluster answer every call, deployments become ready,
      and only time passes besides. */
  predicate Healthy(vault: Vault, s: Sys, step: Step) {
    match step
    case Tick(_) => true
    case BeginRecord => true
    case VaultAnswers(project, version) =>
      s.loop.Lookup? && (project, version) == vault(s.loop.record.repository)
    case CallSucceeds => true
    case FinishDeletion => true
    case FinishApplication(ready) => ready
    case _ => false
  }

  ghost predicate AllHealthy(p: Params, vault: Vault, s: Sys, steps: seq<Step>)
    requires ValidRun(p, s, steps)
    decreases |steps|
  {
    steps == [] || (Healthy(vault, s, steps[0]) && AllHealthy(p, vault, Do(p, s, steps[0]), steps[1..]))
  }

  /** The stored demos have distinct names and Vault authorises those that are wanted. */
  ghost predicate Served(p: Params, vault: Vault, demos: Demos) {
    && (forall k, l | k in demos && l in demos && p.name(k) == p.name(l) :: k == l)
    && forall k | k in demos && demos[k].desiredPresent ::
         ValidConfig(vault(k.repository).0) && NamespaceAllows(p, demos[k], vault(k.repository).0)
  }

  function RenderingOf(p: Params, vault: Vault, row: DemoRecord): Rendered {
    Render(p.place, p.name(row.Id()), row, vault(row.repository).0, vault(row.repository).1)
  }

  /** Two clusters hold the same under a name. */
  predicate SameAt(c: Cluster, d: Cluster, name: string) {
    forall kind: Kind :: At(c, ResourceId(kind, name)) == At(d, ResourceId(kind, name))
  }

  /** The cluster holds exactly this rendering under the name. */
  predicate Holds(c: Cluster, r: Rendered, name: string) {
    forall kind: Kind :: At(c, ResourceId(kind, name)) == r.Part(kind)
  }

  predicate Empty(c: Cluster, name: string) {
    forall kind: Kind :: At(c, ResourceId(kind, name)) == None
  }

  // ---------------------------------------------------------------- one key

  /** What the pass leaves for a key: the demo ready and exactly rendered, or nothing at all. */
  predicate Settled(p: Params, vault: Vault, start: Sys, s: Sys, k: Key)
    requires k in start.demos
  {
    var row := start.demos[k];
    if k in s.demos then
      && row.desiredPresent && row.expiresAt > start.now
      && DesiredOf(s.demos[k]) == DesiredOf(row)
      && s.demos[k].state == Ready
      && s.demos[k].port == Some(vault(k.repository).0.port)
      && s.demos[k].vaultVersion == Some(vault(k.repository).1)
      && Holds(s.cluster, RenderingOf(p, vault, row), p.name(k))
    else
      Unwanted(row, s.now) && Empty(s.cluster, p.name(k))
  }

  predicate Untouched(p: Params, start: Sys, s: Sys, k: Key)
    requires k in start.demos
  {
    k in s.demos && s.demos[k] == start.demos[k] && SameAt(s.cluster, start.cluster, p.name(k))
  }

  /** The record in hand, part way through. */
  predicate InHand(p: Params, vault: Vault, start: Sys, s: Sys, k: Key)
    requires k in start.demos
  {
    && k in s.demos && DesiredOf(s.demos[k]) == DesiredOf(start.demos[k])
    && match s.loop
       case Deletion(record, done, _) =>
         record == start.demos[k] && done <= 4 && Unwanted(record, s.now)
         && SameAt(s.cluster, Exec(start.cluster, DeleteOps(p.name(k))[..done]), p.name(k))
       case Lookup(record, _) =>
         record == start.demos[k] && !Unwanted(record, start.now) && SameAt(s.cluster, start.cluster, p.name(k))
       case Application(record, project, version, done, _) =>
         record == start.demos[k] && !Unwanted(record, start.now)
         && (project, version) == vault(k.repository) && done <= |Calls(p, s.loop)|
         && SameAt(s.cluster, Exec(start.cluster, Calls(p, s.loop)[..done]), p.name(k))
       case _ => false
  }

  function Queue(loop: Loop): seq<DemoRecord> {
    if loop.Resting? then [] else loop.queue
  }

  predicate Current(loop: Loop, k: Key) {
    (loop.Deletion? || loop.Lookup? || loop.Application?) && loop.record.Id() == k
  }

  predicate Queued(loop: Loop, k: Key) {
    exists i | 0 <= i < |Queue(loop)| :: Queue(loop)[i].Id() == k
  }

  predicate KeyOk(p: Params, vault: Vault, start: Sys, s: Sys, k: Key)
    requires k in start.demos
  {
    if Current(s.loop, k) then InHand(p, vault, start, s, k)
    else if Queued(s.loop, k) then Untouched(p, start, s, k)
    else Settled(p, vault, start, s, k)
  }

  /** Where the whole pass stands. */
  ghost predicate Progress(p: Params, vault: Vault, start: Sys, s: Sys) {
    && start.now <= s.now
    && s.demos.Keys <= start.demos.Keys
    && (forall i | 0 <= i < |Jobs(s.loop)| :: Jobs(s.loop)[i].Id() in start.demos && Jobs(s.loop)[i] == start.demos[Jobs(s.loop)[i].Id()])
    && DistinctIds(Jobs(s.loop))
    && (forall k | k in start.demos :: KeyOk(p, vault, start, s, k))
    && (forall id: ResourceId | (forall k | k in start.demos :: p.name(k) != id.name) :: At(s.cluster, id) == At(start.cluster, id))
  }

  // ---------------------------------------------------------------- cluster calls

  lemma OpAt(c: Cluster, d: Cluster, op: Op, name: string)
    requires SameAt(c, d, name)
    ensures SameAt(AfterOp(c, op), AfterOp(d, op), name)
  {
  }

  /** All calls of the loop concern the name of the record in hand. */
  lemma CallsAtName(p: Params, loop: Loop, i: nat)
    requires i < |Calls(p, loop)|
    ensures loop.Deletion? || loop.Application?
    ensures Target(Calls(p, loop)[i]).name == p.name(loop.record.Id())
  {
    if loop.Application? {
      var name := p.name(loop.record.Id());
      RenderWellRendered(p.place, name, loop.record, loop.project, loop.version);
      ApplyTargets(Render(p.place, name, loop.record, loop.project, loop.version), name);
    }
  }

  lemma FourCalls(p: Params, loop: Loop)
    requires loop.Application?
    ensures |Calls(p, loop)| == 4
  {
    var name := p.name(loop.record.Id());
    RenderWellRendered(p.place, name, loop.record, loop.project, loop.version);
    ApplyTargets(Render(p.place, name, loop.record, loop.project, loop.version), name);
  }

  // ---------------------------------------------------------------- steps

  /** A key that the step does not concern stays as it stood. */
  lemma KeyFrame(p: Params, vault: Vault, start: Sys, s: Sys, s': Sys, k: Key)
    requires k in start.demos && KeyOk(p, vault, start, s, k)
    requires !Current(s.loop, k) && !Current(s'.loop, k) && (Queued(s'.loop, k) <==> Queued(s.loop, k))
    requires (k in s'.demos <==> k in s.demos) && (k in s.demos ==> s'.demos[k] == s.demos[k])
    requires SameAt(s'.cluster, s.cluster, p.name(k)) && s.now <= s'.now
    ensures KeyOk(p, vault, start, s', k)
  {
  }

  /** A step concerns one key: it writes that key's row and resources only, and moves on in the queue. */
  ghost predicate Concerns(p: Params, s: Sys, s': Sys, c: Key) {
    && s.now <= s'.now
    && s'.demos.Keys <= s.demos.Keys
    && (forall k | k in s.demos && k != c :: k in s'.demos && s'.demos[k] == s.demos[k])
    && (forall id: ResourceId | id.name != p.name(c) :: At(s'.cluster, id) == At(s.cluster, id))
    && (Jobs(s'.loop) == Jobs(s.loop) || (Jobs(s.loop) != [] && Jobs(s'.loop) == Jobs(s.loop)[1..]))
    && (forall k | k != c :: !Current(s.loop, k) && !Current(s'.loop, k))
    && (Queue(s'.loop) == Queue(s.loop)
        || (Queue(s.loop) != [] && Queue(s.loop)[0].Id() == c && Queue(s'.loop) == Queue(s.loop)[1..]))
  }

  lemma OthersQueued(p: Params, s: Sys, s': Sys, c: Key, k: Key)
    requires Concerns(p, s, s', c) && k != c
    ensures Queued(s'.loop, k) <==> Queued(s.loop, k)
  {
    if Queue(s'.loop) != Queue(s.loop) {
      if Queued(s.loop, k) {
        var i :| 0 <= i < |Queue(s.loop)| && Queue(s.loop)[i].Id() == k;
        assert Queue(s'.loop)[i - 1].Id() == k;
      }
      if Queued(s'.loop, k) {
        var i :| 0 <= i < |Queue(s'.loop)| && Queue(s'.loop)[i].Id() == k;
        assert Queue(s.loop)[i + 1].Id() == k;
      }
    }
  }

  lemma StepKeys(p: Params, vault: Vault, start: Sys, s: Sys, s': Sys, c: Key, k: Key)
    requires Served(p, vault, start.demos) && Concerns(p, s, s', c)
    requires c in start.demos && k in start.demos && KeyOk(p, vault, start, s, k) && KeyOk(p, vault, start, s', c)
    ensures KeyOk(p, vault, start, s', k)
  {
    if k != c {
      OthersQueued(p, s, s', c, k);
      assert p.name(k) != p.name(c);
      KeyFrame(p, vault, start, s, s', k);
    }
  }

  lemma StepJobs(p: Params, vault: Vault, start: Sys, s: Sys, s': Sys, c: Key)
    requires Progress(p, vault, start, s) && Concerns(p, s, s', c)
    ensures forall i | 0 <= i < |Jobs(s'.loop)| :: Jobs(s'.loop)[i].Id() in start.demos && Jobs(s'.loop)[i] == start.demos[Jobs(s'.loop)[i].Id()]
    ensures DistinctIds(Jobs(s'.loop))
  {
    var jobs, jobs' := Jobs(s.loop), Jobs(s'.loop);
    if jobs' != jobs {
      assert jobs != [] && jobs' == jobs[1..];
      assert forall i | 0 <= i < |jobs'| :: jobs'[i] == jobs[i + 1];
    }
  }

  lemma StepProgress(p: Params, vault: Vault, start: Sys, s: Sys, s': Sys, c: Key)
    requires Progress(p, vault, start, s) && Served(p, vault, start.demos)
    requires c in start.demos && Concerns(p, s, s', c) && KeyOk(p, vault, start, s', c)
    ensures Progress(p, vault, start, s')
  {
    StepJobs(p, vault, start, s, s', c);
    forall k | k in start.demos ensures KeyOk(p, vault, start, s', k) {
      StepKeys(p, vault, start, s, s', c, k);
    }
  }

  lemma FirstJob(p: Params, vault: Vault, start: Sys, s: Sys)
    requires Progress(p, vault, start, s) && Jobs(s.loop) != []
    ensures var record := Jobs(s.loop)[0];
            record.Id() in start.demos && record == start.demos[record.Id()] && KeyOk(p, vault, start, s, record.Id())
  {
  }

  /** The record in hand is not queued as well. */
  lemma CurrentNotQueued(loop: Loop)
    requires DistinctIds(Jobs(loop)) && (loop.Deletion? || loop.Lookup? || loop.Application?)
    ensures !Queued(Between(loop.queue), loop.record.Id())
  {
    var jobs := Jobs(loop);
    forall i | 0 <= i < |loop.queue| ensures loop.queue[i].Id() != loop.record.Id() {
      assert jobs[0] == loop.record && jobs[i + 1] == loop.queue[i];
    }
  }

  lemma BeginConcerns(p: Params, s: Sys)
    requires s.loop.Between? && s.loop.queue != []
    ensures Concerns(p, s, DoBeginRecord(s), s.loop.queue[0].Id())
  {
    assert [s.loop.queue[0]] + s.loop.queue[1..] == s.loop.queue;
  }

  lemma BeginKey(p: Params, vault: Vault, start: Sys, s: Sys)
    requires s.loop.Between? && s.loop.queue != [] && start.now <= s.now
    requires var record := s.loop.queue[0];
             record.Id() in start.demos && record == start.demos[record.Id()] && Untouched(p, start, s, record.Id())
    ensures KeyOk(p, vault, start, DoBeginRecord(s), s.loop.queue[0].Id())
  {
    assert DeleteOps(p.name(s.loop.queue[0].Id()))[..0] == [];
  }

  lemma BeginProgress(p: Params, vault: Vault, start: Sys, s: Sys)
    requires Progress(p, vault, start, s) && Served(p, vault, start.demos)
    requires s.loop.Between? && s.loop.queue != []
    ensures Progress(p, vault, start, DoBeginRecord(s))
  {
    FirstJob(p, vault, start, s);
    BeginConcerns(p, s);
    assert Queue(s.loop)[0].Id() == s.loop.queue[0].Id();
    BeginKey(p, vault, start, s);
    StepProgress(p, vault, start, s, DoBeginRecord(s), s.loop.queue[0].Id());
  }

  /** The record in hand, out of the progress of the pass. */
  lemma HandOf(p: Params, vault: Vault, start: Sys, s: Sys)
    requires Progress(p, vault, start, s) && (s.loop.Deletion? || s.loop.Lookup? || s.loop.Application?)
    ensures var c := s.loop.record.Id();
            c in start.demos && s.loop.record == start.demos[c] && InHand(p, vault, start, s, c)
    ensures !Queued(Between(s.loop.queue), s.loop.record.Id())
  {
    assert Jobs(s.loop)[0] == s.loop.record;
    FirstJob(p, vault, start, s);
    CurrentNotQueued(s.loop);
  }

  lemma AnswerKey(p: Params, vault: Vault, start: Sys, s: Sys)
    requires s.loop.Lookup? && s.loop.record.Id() in start.demos && InHand(p, vault, start, s, s.loop.record.Id())
    requires Served(p, vault, start.demos)
    ensures var (project, version) := vault(s.loop.record.repository);
            && ValidConfig(project) && NamespaceAllows(p, s.loop.record, project)
            && InHand(p, vault, start, DoVaultAnswers(p, s, project, version), s.loop.record.Id())
  {
    var (project, version) := vault(s.loop.record.repository);
    assert Calls(p, DoVaultAnswers(p, s, project, version).loop)[..0] == [];
  }

  lemma AnswerProgress(p: Params, vault: Vault, start: Sys, s: Sys)
    requires Progress(p, vault, start, s) && Served(p, vault, start.demos) && s.loop.Lookup?
    ensures var (project, version) := vault(s.loop.record.repository);
            && ValidConfig(project) && NamespaceAllows(p, s.loop.record, project)
            && Progress(p, vault, start, DoVaultAnswers(p, s, project, version))
  {
    var (project, version) := vault(s.loop.record.repository);
    HandOf(p, vault, start, s);
    AnswerKey(p, vault, start, s);
    StepProgress(p, vault, start, s, DoVaultAnswers(p, s, project, version), s.loop.record.Id());
  }

  function AfterCall(p: Params, s: Sys): Sys {
    s.(cluster := Landed(p, s, true), loop := Advance(s.loop))
  }

  lemma CallConcerns(p: Params, s: Sys)
    requires CallPending(p, s.loop)
    ensures s.loop.Deletion? || s.loop.Application?
    ensures Concerns(p, s, AfterCall(p, s), s.loop.record.Id())
  {
    var i := CallsDone(s.loop);
    CallsAtName(p, s.loop, i);
    var op := Calls(p, s.loop)[i];
    assert forall id: ResourceId | id != Target(op) :: At(AfterOp(s.cluster, op), id) == At(s.cluster, id);
  }

  lemma CallKey(p: Params, vault: Vault, start: Sys, s: Sys, c: Key)
    requires CallPending(p, s.loop) && (s.loop.Deletion? || s.loop.Application?) && c == s.loop.record.Id()
    requires c in start.demos && InHand(p, vault, start, s, c)
    ensures InHand(p, vault, start, AfterCall(p, s), c)
  {
    var i, calls := CallsDone(s.loop), Calls(p, s.loop);
    assert Calls(p, Advance(s.loop)) == calls;
    ExecStep(start.cluster, calls, i);
    OpAt(s.cluster, Exec(start.cluster, calls[..i]), calls[i], p.name(c));
  }

  lemma CallProgress(p: Params, vault: Vault, start: Sys, s: Sys)
    requires Progress(p, vault, start, s) && Served(p, vault, start.demos) && CallPending(p, s.loop)
    ensures Progress(p, vault, start, AfterCall(p, s))
  {
    CallConcerns(p, s);
    HandOf(p, vault, start, s);
    CallKey(p, vault, start, s, s.loop.record.Id());
    assert Current(AfterCall(p, s).loop, s.loop.record.Id());
    StepProgress(p, vault, start, s, AfterCall(p, s), s.loop.record.Id());
  }

  lemma DeletionKey(p: Params, vault: Vault, start: Sys, s: Sys, s': Sys)
    requires s.loop.Deletion? && s.loop.done == 4
    requires s' == s.(demos := DeleteRecord(s.demos, s.loop.record.Id()), log := s'.log, loop := Between(s.loop.queue))
    requires var c := s.loop.record.Id(); c in start.demos && InHand(p, vault, start, s, c)
    ensures Settled(p, vault, start, s', s.loop.record.Id())
  {
    var name := p.name(s.loop.record.Id());
    assert DeleteOps(name)[..4] == DeleteOps(name);
    forall kind: Kind ensures At(s'.cluster, ResourceId(kind, name)) == None {
      DeleteIsExact(start.cluster, name, ResourceId(kind, name));
    }
  }

  lemma DeletionConcerns(p: Params, s: Sys, s': Sys)
    requires s.loop.Deletion?
    requires s' == s.(demos := DeleteRecord(s.demos, s.loop.record.Id()), log := s'.log, loop := Between(s.loop.queue))
    ensures Concerns(p, s, s', s.loop.record.Id())
  {
    assert Jobs(s.loop)[1..] == s.loop.queue;
  }

  lemma ApplicationConcerns(p: Params, s: Sys)
    requires s.loop.Application? && s.loop.record.Id() in s.demos
    ensures Concerns(p, s, DoFinishApplication(s, true), s.loop.record.Id())
  {
    assert Jobs(s.loop)[1..] == s.loop.queue;
  }

  lemma SettledKey(p: Params, vault: Vault, start: Sys, s: Sys, k: Key)
    requires k in start.demos && s.loop.Between? && !Queued(Between(s.loop.queue), k) && Settled(p, vault, start, s, k)
    ensures KeyOk(p, vault, start, s, k)
  {
    assert Queue(s.loop) == Queue(Between(s.loop.queue));
  }

  lemma DeletionProgress(p: Params, vault: Vault, start: Sys, s: Sys, s': Sys)
    requires Progress(p, vault, start, s) && Served(p, vault, start.demos)
    requires s.loop.Deletion? && s.loop.done == 4
    requires s' == s.(demos := DeleteRecord(s.demos, s.loop.record.Id()), log := s'.log, loop := Between(s.loop.queue))
    ensures Progress(p, vault, start, s')
  {
    HandOf(p, vault, start, s);
    DeletionKey(p, vault, start, s, s');
    DeletionConcerns(p, s, s');
    SettledKey(p, vault, start, s', s.loop.record.Id());
    StepProgress(p, vault, start, s, s', s.loop.record.Id());
  }

  lemma ApplicationCluster(p: Params, vault: Vault, start: Sys, s: Sys)
    requires s.loop.Application? && s.loop.done == |Calls(p, s.loop)|
    requires var c := s.loop.record.Id(); c in start.demos && InHand(p, vault, start, s, c)
    ensures Holds(s.cluster, RenderingOf(p, vault, s.loop.record), p.name(s.loop.record.Id()))
  {
    var calls, name := Calls(p, s.loop), p.name(s.loop.record.Id());
    assert calls[..|calls|] == calls;
    var r := RenderingOf(p, vault, s.loop.record);
    RenderWellRendered(p.place, name, s.loop.record, s.loop.project, s.loop.version);
    forall kind: Kind ensures At(s.cluster, ResourceId(kind, name)) == r.Part(kind) {
      ApplyIsExact(start.cluster, r, name, ResourceId(kind, name));
    }
  }

  lemma ApplicationKey(p: Params, vault: Vault, start: Sys, s: Sys)
    requires s.loop.Application? && s.loop.done == |Calls(p, s.loop)|
    requires var c := s.loop.record.Id(); c in start.demos && InHand(p, vault, start, s, c)
    ensures Settled(p, vault, start, DoFinishApplication(s, true), s.loop.record.Id())
  {
    ApplicationCluster(p, vault, start, s);
  }

  lemma ApplicationProgress(p: Params, vault: Vault, start: Sys, s: Sys)
    requires Progress(p, vault, start, s) && Served(p, vault, start.demos)
    requires s.loop.Application? && s.loop.done == |Calls(p, s.loop)|
    ensures Progress(p, vault, start, DoFinishApplication(s, true))
  {
    var s' := DoFinishApplication(s, true);
    HandOf(p, vault, start, s);
    ApplicationKey(p, vault, start, s);
    ApplicationConcerns(p, s);
    SettledKey(p, vault, start, s', s.loop.record.Id());
    StepProgress(p, vault, start, s, s', s.loop.record.Id());
  }

  lemma TickProgress(p: Params, vault: Vault, start: Sys, s: Sys, now: int)
    requires Progress(p, vault, start, s) && s.now <= now
    ensures Progress(p, vault, start, s.(now := now))
  {
    var s' := s.(now := now);
    forall k | k in start.demos ensures KeyOk(p, vault, start, s', k) {
      assert KeyOk(p, vault, start, s, k);
      assert Calls(p, s'.loop) == Calls(p, s.loop);
    }
  }

  lemma HealthyStepProgress(p: Params, vault: Vault, start: Sys, s: Sys, step: Step)
    requires Progress(p, vault, start, s) && Served(p, vault, start.demos)
    requires Enabled(p, s, step) && Healthy(vault, s, step)
    ensures Progress(p, vault, start, Do(p, s, step))
  {
    match step
    case Tick(now) => TickProgress(p, vault, start, s, now);
    case BeginRecord => BeginProgress(p, vault, start, s);
    case VaultAnswers(project, version) => AnswerProgress(p, vault, start, s);
    case CallSucceeds => CallProgress(p, vault, start, s);
    case FinishDeletion => DeletionProgress(p, vault, start, s, Do(p, s, step));
    case FinishApplication(ready) => ApplicationProgress(p, vault, start, s);
  }

  lemma {:induction false} HealthyRunProgress(p: Params, vault: Vault, start: Sys, s: Sys, steps: seq<Step>)
    requires Progress(p, vault, start, s) && Served(p, vault, start.demos)
    requires ValidRun(p, s, steps) && AllHealthy(p, vault, s, steps)
    ensures Progress(p, vault, start, Run(p, s, steps))
    decreases |steps|
  {
    if steps != [] {
      HealthyStepProgress(p, vault, start, s, steps[0]);
      HealthyRunProgress(p, vault, start, Do(p, s, steps[0]), steps[1..]);
    }
  }

  lemma SnapshotHasKey(s: Sys, rows: seq<DemoRecord>, k: Key)
    requires IsSelection(rows, s.demos, (row: DemoRecord) => Listed(row.state))
    requires k in s.demos && Listed(s.demos[k].state) && s.demos[k].Id() == k
    ensures Queued(Between(rows), k)
  {
    var i :| 0 <= i < |rows| && rows[i] == s.demos[k];
    assert Queue(Between(rows))[i].Id() == k;
  }

  lemma PassBegins(p: Params, vault: Vault, s: Sys, rows: seq<DemoRecord>)
    requires RowsOk(p, s.demos)
    requires IsSelection(rows, s.demos, (row: DemoRecord) => Listed(row.state))
    ensures Progress(p, vault, s, s.(loop := Between(rows), seen := s.log))
  {
    var s' := s.(loop := Between(rows), seen := s.log);
    forall k | k in s.demos ensures KeyOk(p, vault, s, s', k) {
      assert RowOk(p, s.demos[k]) && s.demos[k].Id() == k;
      SnapshotHasKey(s, rows, k);
      assert Untouched(p, s, s', k);
    }
  }

  /** One healthy pass over a fresh snapshot, from any reachable resting state. A record desired and
      unexpired throughout ends ready, its resources exactly its rendering; one undesired or already
      expired is gone with all four resources; one that expires during the pass ends one way or the
      other; every resource under another name is untouched. */
  lemma PassConverges(p: Params, vault: Vault, s: Sys, rows: seq<DemoRecord>, steps: seq<Step>)
    requires Reachable(p, s) && Served(p, vault, s.demos) && Enabled(p, s, BeginPass(rows))
    requires var begun := Do(p, s, BeginPass(rows));
             ValidRun(p, begun, steps) && AllHealthy(p, vault, begun, steps)
             && Run(p, begun, steps).loop == Between([])
    ensures var s' := Run(p, Do(p, s, BeginPass(rows)), steps);
            && s'.demos.Keys <= s.demos.Keys
            && (forall k | k in s.demos :: Settled(p, vault, s, s', k))
            && (forall k | k in s.demos && s.demos[k].desiredPresent && s.demos[k].expiresAt > s'.now ::
                  k in s'.demos && s'.demos[k].state == Ready && Holds(s'.cluster, RenderingOf(p, vault, s.demos[k]), p.name(k)))
            && (forall k | k in s.demos && Unwanted(s.demos[k], s.now) :: k !in s'.demos && Empty(s'.cluster, p.name(k)))
            && (forall id: ResourceId | (forall k | k in s.demos :: p.name(k) != id.name) :: At(s'.cluster, id) == At(s.cluster, id))
  {
    ReachableInv(p, s);
    PassBegins(p, vault, s, rows);
    HealthyRunProgress(p, vault, s, Do(p, s, BeginPass(rows)), steps);
    var s' := Run(p, Do(p, s, BeginPass(rows)), steps);
    forall k | k in s.demos ensures Settled(p, vault, s, s', k) {
      assert KeyOk(p, vault, s, s', k) && !Queued(s'.loop, k);
    }
  }

  // ---------------------------------------------------------------- every healthy pass completes

  /** An upper bound on the steps the pass still takes. */
  function Cost(loop: Loop): int {
    match loop
    case Resting => 0
    case Between(queue) => 7 * |queue|
    case Deletion(_, done, queue) => 7 * |queue| + 5 - done
    case Lookup(_, queue) => 7 * |queue| + 6
    case Application(_, _, _, done, queue) => 7 * |queue| + 5 - done
  }

  /** Every healthy step of the loop brings the pass nearer its end. */
  lemma HealthyCost(p: Params, vault: Vault, s: Sys, step: Step)
    requires Enabled(p, s, step) && Healthy(vault, s, step)
    ensures Cost(Do(p, s, step).loop) < Cost(s.loop) || (step.Tick? && Do(p, s, step).loop == s.loop)
  {
    match step
    case Tick(_) =>
    case BeginRecord => assert Cost(DoBeginRecord(s).loop) < Cost(s.loop);
    case VaultAnswers(project, version) => assert Cost(DoVaultAnswers(p, s, project, version).loop) < Cost(s.loop);
    case CallSucceeds => assert Cost(Advance(s.loop)) < Cost(s.loop);
    case FinishDeletion => assert Cost(Between(s.loop.queue)) < Cost(s.loop);
    case FinishApplication(ready) =>
      assert |Calls(p, s.loop)| == 4 by { FourCalls(p, s.loop); }
      assert Cost(DoFinishApplication(s, ready).loop) < Cost(s.loop);
  }

  function Ticks(steps: seq<Step>): nat {
    if steps == [] then 0 else (if steps[0].Tick? then 1 else 0) + Ticks(steps[1..])
  }

  lemma CostNonnegative(p: Params, vault: Vault, start: Sys, s: Sys)
    requires Progress(p, vault, start, s)
    ensures Cost(s.loop) >= 0
  {
    if s.loop.Deletion? || s.loop.Application? { HandOf(p, vault, start, s); }
    if s.loop.Application? { FourCalls(p, s.loop); }
  }

  /** Seven steps for each record at most, clock readings aside. */
  lemma {:induction false} PassBounded(p: Params, vault: Vault, start: Sys, s: Sys, steps: seq<Step>)
    requires Progress(p, vault, start, s) && Served(p, vault, start.demos)
    requires ValidRun(p, s, steps) && AllHealthy(p, vault, s, steps)
    ensures |steps| - Ticks(steps) <= Cost(s.loop)
    decreases |steps|
  {
    CostNonnegative(p, vault, start, s);
    if steps != [] {
      HealthyCost(p, vault, s, steps[0]);
      HealthyStepProgress(p, vault, start, s, steps[0]);
      PassBounded(p, vault, start, Do(p, s, steps[0]), steps[1..]);
    }
  }

  /** Until the queue is empty, a healthy step is possible. */
  lemma PassNeverStuck(p: Params, vault: Vault, start: Sys, s: Sys) returns (step: Step)
    requires Progress(p, vault, start, s) && Served(p, vault, start.demos)
    requires !s.loop.Resting? && s.loop != Between([])
    ensures Enabled(p, s, step) && Healthy(vault, s, step) && !step.Tick?
  {
    match s.loop
    case Between(_) => step := BeginRecord;
    case Deletion(_, done, _) =>
      HandOf(p, vault, start, s);
      step := if done < 4 then CallSucceeds else FinishDeletion;
    case Lookup(record, _) =>
      AnswerProgress(p, vault, start, s);
      step := VaultAnswers(vault(record.repository).0, vault(record.repository).1);
    case Application(_, _, _, done, _) =>
      HandOf(p, vault, start, s);
      step := if done < |Calls(p, s.loop)| then CallSucceeds else FinishApplication(true);
  }

  /** A healthy step before a healthy run. */
  lemma HealthyFirst(p: Params, vault: Vault, s: Sys, step: Step, rest: seq<Step>) returns (steps: seq<Step>)
    requires Enabled(p, s, step) && Healthy(vault, s, step)
    requires ValidRun(p, Do(p, s, step), rest) && AllHealthy(p, vault, Do(p, s, step), rest)
    ensures steps == [step] + rest && ValidRun(p, s, steps) && AllHealthy(p, vault, s, steps)
    ensures Run(p, s, steps) == Run(p, Do(p, s, step), rest)
  {
    steps := [step] + rest;
    assert steps[0] == step && steps[1..] == rest;
  }

  /** Until its queue is empty, a healthy pass has a step to make, which brings it nearer its end. */
  lemma NextStep(p: Params, vault: Vault, start: Sys, s: Sys) returns (step: Step)
    requires Progress(p, vault, start, s) && Served(p, vault, start.demos)
    requires !s.loop.Resting? && s.loop != Between([])
    ensures Enabled(p, s, step) && Healthy(vault, s, step) && Progress(p, vault, start, Do(p, s, step))
    ensures !Do(p, s, step).loop.Resting? && 0 <= Cost(Do(p, s, step).loop) < Cost(s.loop)
  {
    step := PassNeverStuck(p, vault, start, s);
    assert Progress(p, vault, start, Do(p, s, step)) by { HealthyStepProgress(p, vault, start, s, step); }
    assert Cost(Do(p, s, step).loop) >= 0 by { CostNonnegative(p, vault, start, Do(p, s, step)); }
    assert Cost(Do(p, s, step).loop) < Cost(s.loop) by { HealthyCost(p, vault, s, step); }
    StaysActive(p, vault, s, step);
  }

  lemma StaysActive(p: Params, vault: Vault, s: Sys, step: Step)
    requires Enabled(p, s, step) && Healthy(vault, s, step) && !s.loop.Resting?
    ensures !Do(p, s, step).loop.Resting?
  {
    match step
    case Tick(_) =>
    case BeginRecord => assert !DoBeginRecord(s).loop.Resting?;
    case VaultAnswers(project, version) => assert !DoVaultAnswers(p, s, project, version).loop.Resting?;
    case CallSucceeds => assert !Advance(s.loop).Resting?;
    case FinishDeletion =>
    case FinishApplication(ready) => assert !DoFinishApplication(s, ready).loop.Resting?;
  }

  lemma PassCanComplete(p: Params, vault: Vault, start: Sys, s: Sys) returns (steps: seq<Step>)
    requires Progress(p, vault, start, s) && Served(p, vault, start.demos) && !s.loop.Resting?
    ensures ValidRun(p, s, steps) && AllHealthy(p, vault, s, steps) && Run(p, s, steps).loop == Between([])
    decreases Cost(s.loop)
  {
    steps := [];
    if s.loop != Between([]) {
      var step := NextStep(p, vault, start, s);
      var rest := PassCanComplete(p, vault, start, Do(p, s, step));
      steps := HealthyFirst(p, vault, s, step, rest);
    }
  }

  // ---------------------------------------------------------------- the controller's own names

  /** The parameters of the deployed controller: names are printed by `resource_name`. */
  function ControllerParams(digest: string -> string, place: Place, registry: string, ofDestroy: string -> bool): Params {
    Params((k: Key) => if HexDigest(digest(k.repository)) then ResourceName(digest(k.repository), k.repository, k.pr) else "",
           place, registry, ofDestroy)
  }

  /** With pull request numbers below one million, and stored repositories told apart by eight
      digest characters, the names of stored demos are distinct, as convergence asks. */
  lemma ControllerNamesDistinct(digest: string -> string, place: Place, registry: string, ofDestroy: string -> bool,
                                demos: Demos)
    requires forall k | k in demos :: HexDigest(digest(k.repository)) && k.pr < 1_000_000
    requires forall k, l | k in demos && l in demos && k.repository != l.repository ::
               Take(digest(k.repository), 8) != Take(digest(l.repository), 8)
    ensures var p := ControllerParams(digest, place, registry, ofDestroy);
            forall k, l | k in demos && l in demos && p.name(k) == p.name(l) :: k == l
  {
    var p := ControllerParams(digest, place, registry, ofDestroy);
    forall k, l | k in demos && l in demos && k != l ensures p.name(k) != p.name(l) {
      DistinctNames(digest(k.repository), k.repository, k.pr, digest(l.repository), l.repository, l.pr);
    }
  }
}
