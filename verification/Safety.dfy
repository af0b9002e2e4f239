/** What every run of the control plane keeps, and what follows for routes, deliveries and
    resources. */
module Safety {
  import opened Text
  import opened Models
  import opened Store
  import opened Kubernetes
  import opened ControlPlane

  // ---------------------------------------------------------------- the invariant

  ghost predicate ImageOk(p: Params, repository: string, image: Option<string>) {
    image.Some? ==> AuthorisedImage(p.registry, repository, image.value)
  }

  ghost predicate RowOk(p: Params, row: DemoRecord) {
    && '/' in row.repository
    && (row.port.Some? <==> row.vaultVersion.Some?)
    && (row.port.Some? ==> 1024 <= row.port.value <= 65535)
    && (row.state.Ready? ==> row.port.Some?)
    && (row.state.Pending? ==> row.desiredPresent)
    && (row.desiredPresent ==> row.commitSha.Some? && row.image.Some?)
    && Listed(row.state)
    && ImageOk(p, row.repository, row.image)
    && (row.desiredPresent <==> !p.ofDestroy(row.requestHash))
  }

  ghost predicate RowsOk(p: Params, demos: Demos) {
    forall k | k in demos :: demos[k].Id() == k && RowOk(p, demos[k])
  }

  /** The delivery columns are what the log asks for. */
  predicate Logged(demos: Demos, log: Log) {
    log.Keys == demos.Keys && forall k | k in demos :: log[k] != [] && DesiredOf(demos[k]) == Wanted(log[k])
  }

  /** The records the loop still has in hand. */
  function Jobs(loop: Loop): seq<DemoRecord> {
    match loop
    case Resting => []
    case Between(queue) => queue
    case Deletion(record, _, queue) => [record] + queue
    case Lookup(record, queue) => [record] + queue
    case Application(record, _, _, _, queue) => [record] + queue
  }

  /** A record in hand is what the deliveries asked for when the pass began; its row is still there. */
  ghost predicate JobOk(p: Params, s: Sys, record: DemoRecord) {
    var k := record.Id();
    && k in s.demos && k in s.log && k in s.seen
    && RowOk(p, record)
    && s.seen[k] != [] && s.seen[k] <= s.log[k]
    && DesiredOf(record) == Wanted(s.seen[k])
  }

  predicate DistinctIds(rows: seq<DemoRecord>) {
    forall i, j | 0 <= i < j < |rows| :: rows[i].Id() != rows[j].Id()
  }

  ghost predicate JobsOk(p: Params, s: Sys) {
    DistinctIds(Jobs(s.loop)) && forall i | 0 <= i < |Jobs(s.loop)| :: JobOk(p, s, Jobs(s.loop)[i])
  }

  /** A resource carries the name of a stored record, and a Deployment an image of that record's repository. */
  ghost predicate Owned(p: Params, keys: set<Key>, r: Resource) {
    exists k | k in keys ::
      p.name(k) == r.meta.name
      && (r.DeploymentOf? ==> r.image.Some? && AuthorisedImage(p.registry, k.repository, r.image.value))
  }

  ghost predicate ClusterOk(p: Params, keys: set<Key>, c: Cluster) {
    forall id | id in c :: c[id].Id() == id && Owned(p, keys, c[id])
  }

  ghost predicate LoopOk(p: Params, s: Sys) {
    match s.loop
    case Deletion(record, done, _) =>
      && done <= 4 && Unwanted(record, s.now)
      && forall i | 0 <= i < done :: DeleteOps(p.name(record.Id()))[i].id !in s.cluster
    case Lookup(record, _) => record.desiredPresent
    case Application(record, project, _, done, _) =>
      && record.desiredPresent && ValidConfig(project) && NamespaceAllows(p, record, project)
      && done <= |Calls(p, s.loop)|
    case _ => true
  }

  ghost predicate Inv(p: Params, s: Sys) {
    && RowsOk(p, s.demos)
    && Logged(s.demos, s.log)
    && JobsOk(p, s)
    && ClusterOk(p, s.demos.Keys, s.cluster)
    && LoopOk(p, s)
  }

  // ---------------------------------------------------------------- deliveries

  lemma {:induction false} SameIdAfter(log: seq<Delivery>, i: nat, j: nat)
    requires i <= j < |log| && forall k | i < k < |log| :: !Effective(log, k)
    ensures log[j].id == log[i].id
  {
    if i < j {
      assert !Effective(log, j);
      SameIdAfter(log, i, j - 1);
    }
  }

  lemma EffectivePrefix(log: seq<Delivery>, d: Delivery)
    ensures forall j | 0 <= j < |log| :: Effective(log + [d], j) == Effective(log, j)
    ensures Effective(log + [d], |log|) <==> (log == [] || log[|log| - 1].id != d.id)
  {
  }

  /** One more delivery: a repeat of the current one changes nothing; a deploy replaces all but the
      creation time; a destroy replaces presence and delivery only. */
  lemma WantedStep(log: seq<Delivery>, d: Delivery)
    requires log != []
    ensures var before, after := Wanted(log), Wanted(log + [d]);
            after == if d.id == before.deliveryId then before
                     else if d.Deployed? then
                       Desired(true, Some(d.commitSha), Some(d.image), d.id, d.hash, before.createdAt, d.at + LIFETIME)
                     else before.(present := false, deliveryId := d.id, requestHash := d.hash)
  {
    var last := LastEffective(log);
    SameIdAfter(log, last, |log| - 1);
    EffectivePrefix(log, d);
    assert (log + [d])[..|log + [d]| - 1] == log;
    LastUnique(log, d);
  }

  lemma LastUnique(log: seq<Delivery>, d: Delivery)
    requires log != []
    ensures LastEffective(log + [d]) == if Effective(log + [d], |log|) then |log| else LastEffective(log)
    ensures LastDeploy(log + [d]) == if EffectiveDeploy(log + [d], |log|) then |log| else LastDeploy(log)
  {
    assert (log + [d])[..|log + [d]| - 1] == log;
  }

  lemma WantedFirst(d: Delivery)
    ensures Wanted([d]) == if d.Deployed?
                           then Desired(true, Some(d.commitSha), Some(d.image), d.id, d.hash, d.at, d.at + LIFETIME)
                           else Desired(false, None, None, d.id, d.hash, d.at, d.at)
  {
  }

  // ---------------------------------------------------------------- preservation

  lemma AdmissibleFacts(p: Params, request: DeployRequest)
    requires Admissible(p, request)
    ensures '/' in request.repository && AuthorisedImage(p.registry, request.repository, request.image)
  {
    RepositoryCharacters(request.repository);
    AcceptedImageIff(p.registry, request.repository, request.image);
  }

  /** More rows and longer logs leave the jobs in order. */
  lemma JobsFrame(p: Params, s: Sys, s': Sys)
    requires JobsOk(p, s) && s'.seen == s.seen && s'.loop == s.loop
    requires forall k | k in s.demos && k in s.log :: k in s'.demos && k in s'.log && s.log[k] <= s'.log[k]
    ensures JobsOk(p, s')
  {
    forall i | 0 <= i < |Jobs(s.loop)| ensures JobOk(p, s', Jobs(s.loop)[i]) {
      assert JobOk(p, s, Jobs(s.loop)[i]);
    }
  }

  lemma ClusterFrame(p: Params, keys: set<Key>, more: set<Key>, c: Cluster)
    requires ClusterOk(p, keys, c) && keys <= more
    ensures ClusterOk(p, more, c)
  {
    forall id | id in c ensures Owned(p, more, c[id]) {
      assert Owned(p, keys, c[id]);
    }
  }

  lemma UpsertKeepsRows(p: Params, demos: Demos, request: DeployRequest, hash: string, now: int)
    requires RowsOk(p, demos) && '/' in request.repository && !p.ofDestroy(hash)
    requires AuthorisedImage(p.registry, request.repository, request.image)
    ensures RowsOk(p, UpsertDeploy(demos, request, hash, now))
  {
    assert RowOk(p, DeployedRow(demos, request, hash, now));
  }

  lemma DestroyKeepsRows(p: Params, demos: Demos, key: Key, id: string, hash: string, now: int)
    requires RowsOk(p, demos) && '/' in key.repository && p.ofDestroy(hash)
    ensures RowsOk(p, RequestDestroy(demos, key, id, hash, now))
  {
    assert RowOk(p, DestroyedRow(demos, key, id, hash, now));
  }

  /** The row a delivery leaves behind is what the longer log asks for. */
  lemma DeployedIsWanted(s: Sys, request: DeployRequest, hash: string)
    requires Logged(s.demos, s.log)
    requires !Judge(s.demos, DeployKey(request), request.deliveryId, hash).Conflict?
    ensures var key, s' := DeployKey(request), DoDeploy(s, request, hash);
            key in s'.demos && key in s'.log && DesiredOf(s'.demos[key]) == Wanted(s'.log[key])
  {
    var key := DeployKey(request);
    var d := Deployed(request.commitSha, request.image, request.deliveryId, hash, s.now);
    if key in s.demos {
      WantedStep(s.log[key], d);
    } else {
      WantedFirst(d);
      assert [] + [d] == [d];
    }
  }

  lemma DestroyedIsWanted(s: Sys, key: Key, id: string, hash: string)
    requires Logged(s.demos, s.log)
    requires !Judge(s.demos, key, id, hash).Conflict?
    ensures var s' := DoDestroy(s, key, id, hash);
            key in s'.demos && key in s'.log && DesiredOf(s'.demos[key]) == Wanted(s'.log[key])
  {
    var d := Destroyed(id, hash, s.now);
    if key in s.demos {
      WantedStep(s.log[key], d);
    } else {
      WantedFirst(d);
      assert [] + [d] == [d];
    }
  }

  lemma OneKeyLogged(demos: Demos, log: Log, demos': Demos, log': Log, key: Key)
    requires Logged(demos, log)
    requires key in demos' && key in log' && log'[key] != []
    requires demos' == demos[key := demos'[key]] && log' == log[key := log'[key]]
    requires DesiredOf(demos'[key]) == Wanted(log'[key])
    ensures Logged(demos', log')
  {
  }

  /** An accepted delivery changes one row at most and appends to the log of its key. */
  predicate Delivers(s: Sys, s': Sys, key: Key) {
    && s' == s.(demos := s'.demos, log := s'.log)
    && key in s'.demos && s'.demos == s.demos[key := s'.demos[key]]
    && key in s'.log && s'.log == s.log[key := s'.log[key]] && s'.log[key] != []
    && (key in s.log ==> s.log[key] <= s'.log[key])
  }

  lemma DeployDelivers(s: Sys, request: DeployRequest, hash: string)
    requires !Judge(s.demos, DeployKey(request), request.deliveryId, hash).Conflict?
    ensures Delivers(s, DoDeploy(s, request, hash), DeployKey(request))
  {
  }

  lemma DestroyDelivers(s: Sys, key: Key, id: string, hash: string)
    requires !Judge(s.demos, key, id, hash).Conflict?
    ensures Delivers(s, DoDestroy(s, key, id, hash), key)
  {
  }

  lemma DeliveryKeepsJobs(p: Params, s: Sys, s': Sys, key: Key)
    requires JobsOk(p, s) && Delivers(s, s', key)
    ensures JobsOk(p, s')
  {
    JobsFrame(p, s, s');
  }

  lemma DeliveryKeepsLoop(p: Params, s: Sys, s': Sys, key: Key)
    requires LoopOk(p, s) && Delivers(s, s', key)
    ensures LoopOk(p, s')
  {
  }

  lemma DeliveryKeepsInv(p: Params, s: Sys, s': Sys, key: Key)
    requires Inv(p, s) && Delivers(s, s', key)
    requires RowsOk(p, s'.demos) && DesiredOf(s'.demos[key]) == Wanted(s'.log[key])
    ensures Inv(p, s')
  {
    assert Logged(s'.demos, s'.log) by { OneKeyLogged(s.demos, s.log, s'.demos, s'.log, key); }
    assert JobsOk(p, s') by { DeliveryKeepsJobs(p, s, s', key); }
    assert LoopOk(p, s') by { DeliveryKeepsLoop(p, s, s', key); }
    assert ClusterOk(p, s'.demos.Keys, s'.cluster) by { ClusterFrame(p, s.demos.Keys, s'.demos.Keys, s.cluster); }
  }

  lemma DeployKeepsInv(p: Params, s: Sys, request: DeployRequest, hash: string)
    requires Inv(p, s) && '/' in request.repository && !p.ofDestroy(hash)
    requires AuthorisedImage(p.registry, request.repository, request.image)
    ensures Inv(p, DoDeploy(s, request, hash))
  {
    if !Judge(s.demos, DeployKey(request), request.deliveryId, hash).Conflict? {
      UpsertKeepsRows(p, s.demos, request, hash, s.now);
      DeployedIsWanted(s, request, hash);
      DeployDelivers(s, request, hash);
      DeliveryKeepsInv(p, s, DoDeploy(s, request, hash), DeployKey(request));
    }
  }

  lemma DestroyKeepsInv(p: Params, s: Sys, key: Key, id: string, hash: string)
    requires Inv(p, s) && '/' in key.repository && p.ofDestroy(hash)
    ensures Inv(p, DoDestroy(s, key, id, hash))
  {
    if !Judge(s.demos, key, id, hash).Conflict? {
      DestroyKeepsRows(p, s.demos, key, id, hash, s.now);
      DestroyedIsWanted(s, key, id, hash);
      DestroyDelivers(s, key, id, hash);
      DeliveryKeepsInv(p, s, DoDestroy(s, key, id, hash), key);
    }
  }

  /** A reconciler write keeps the rows in order and touches no delivery column. */
  lemma WriteKeepsRow(p: Params, row: DemoRecord, state: DemoState, message: string, version: Option<int>, port: Option<int>, now: int)
    requires RowOk(p, row) && Listed(state) && !state.Pending? && (state.Ready? ==> port.Some?)
    requires (port.Some? <==> version.Some?) && (port.Some? ==> 1024 <= port.value <= 65535)
    ensures var row' := UpdatedRow(row, state, message, version, port, now);
            RowOk(p, row') && row'.Id() == row.Id() && DesiredOf(row') == DesiredOf(row)
  {
  }

  lemma WriteKeepsRows(p: Params, s: Sys, key: Key, state: DemoState, message: string, version: Option<int>, port: Option<int>)
    requires RowsOk(p, s.demos) && Logged(s.demos, s.log)
    requires Listed(state) && !state.Pending? && (state.Ready? ==> port.Some?)
    requires (port.Some? <==> version.Some?) && (port.Some? ==> 1024 <= port.value <= 65535)
    ensures var demos := UpdateState(s.demos, key, state, message, version, port, s.now);
            RowsOk(p, demos) && Logged(demos, s.log) && demos.Keys == s.demos.Keys
  {
    if key in s.demos {
      WriteKeepsRow(p, s.demos[key], state, message, version, port, s.now);
      var row := UpdatedRow(s.demos[key], state, message, version, port, s.now);
      ReplaceRow(p, s.demos, s.log, key, row);
    }
  }

  lemma ReplaceRow(p: Params, demos: Demos, log: Log, key: Key, row: DemoRecord)
    requires RowsOk(p, demos) && Logged(demos, log) && key in demos
    requires RowOk(p, row) && row.Id() == demos[key].Id() && DesiredOf(row) == DesiredOf(demos[key])
    ensures RowsOk(p, demos[key := row]) && Logged(demos[key := row], log)
    ensures demos[key := row].Keys == demos.Keys
  {
  }

  /** Moving on in the pass: the remaining jobs were jobs before. */
  lemma LoopFrame(p: Params, s: Sys, s': Sys)
    requires Inv(p, s) && s'.seen == s.seen && s'.log == s.log && s'.demos.Keys == s.demos.Keys
    requires Jobs(s'.loop) == Jobs(s.loop) || (Jobs(s.loop) != [] && Jobs(s'.loop) == Jobs(s.loop)[1..]) || Jobs(s'.loop) == []
    requires RowsOk(p, s'.demos) && Logged(s'.demos, s'.log)
    requires ClusterOk(p, s'.demos.Keys, s'.cluster) && LoopOk(p, s')
    ensures Inv(p, s')
  {
    forall i | 0 <= i < |Jobs(s'.loop)| ensures JobOk(p, s', Jobs(s'.loop)[i]) {
      assert JobOk(p, s, Jobs(s'.loop)[i]) by {
        if Jobs(s'.loop) == Jobs(s.loop) {
          assert JobOk(p, s, Jobs(s.loop)[i]);
        } else {
          assert JobOk(p, s, Jobs(s.loop)[i + 1]);
        }
      }
    }
  }

  lemma BeginPassKeepsInv(p: Params, s: Sys, rows: seq<DemoRecord>)
    requires Inv(p, s) && Enabled(p, s, BeginPass(rows))
    ensures Inv(p, Do(p, s, BeginPass(rows)))
  {
    var s' := Do(p, s, BeginPass(rows));
    forall i | 0 <= i < |rows| ensures JobOk(p, s', rows[i]) {
      assert s.demos[rows[i].Id()] == rows[i];
    }
  }

  /** Taking up a record: its row is written and it stays the first job. */
  lemma TakeUpKeepsInv(p: Params, s: Sys, state: DemoState, message: string, loop: Loop)
    requires Inv(p, s) && s.loop.Between? && s.loop.queue != []
    requires state.Deleting? || state.Reconciling?
    requires Jobs(loop) == s.loop.queue && LoopOk(p, s.(loop := loop))
    ensures Inv(p, s.(demos := SetState(s, s.loop.queue[0].Id(), state, message), loop := loop))
  {
    WriteKeepsRows(p, s, s.loop.queue[0].Id(), state, message, None, None);
    LoopFrame(p, s, s.(demos := SetState(s, s.loop.queue[0].Id(), state, message), loop := loop));
  }

  lemma BeginRecordKeepsInv(p: Params, s: Sys)
    requires Inv(p, s) && s.loop.Between? && s.loop.queue != []
    ensures Inv(p, DoBeginRecord(s))
  {
    var record, rest := s.loop.queue[0], s.loop.queue[1..];
    var unwanted := Unwanted(record, s.now);
    var loop := if unwanted then Deletion(record, 0, rest) else Lookup(record, rest);
    assert Jobs(loop) == s.loop.queue by { assert [record] + rest == s.loop.queue; }
    assert LoopOk(p, s.(loop := loop));
    TakeUpKeepsInv(p, s, if unwanted then DemoState.Deleting else Reconciling,
                   if unwanted then "deleting resources" else "loading configuration", loop);
  }

  lemma FailureKeepsInv(p: Params, s: Sys, message: string)
    requires Inv(p, s) && (s.loop.Deletion? || s.loop.Lookup? || s.loop.Application?)
    ensures Inv(p, Failure(s, s.loop.record, message, s.loop.queue))
  {
    var s' := Failure(s, s.loop.record, message, s.loop.queue);
    WriteKeepsRows(p, s, s.loop.record.Id(), Failed, message, None, None);
    assert Jobs(s'.loop) == Jobs(s.loop)[1..];
    LoopFrame(p, s, s');
  }

  lemma VaultAnswersKeepsInv(p: Params, s: Sys, project: ProjectConfig, version: int)
    requires Inv(p, s) && Enabled(p, s, VaultAnswers(project, version))
    ensures Inv(p, DoVaultAnswers(p, s, project, version))
  {
    if NamespaceAllows(p, s.loop.record, project) {
      var s' := DoVaultAnswers(p, s, project, version);
      assert Jobs(s'.loop) == Jobs(s.loop);
      LoopFrame(p, s, s');
    } else {
      FailureKeepsInv(p, s, "Kubernetes reconciliation failed (ValueError)");
    }
  }

  /** Everything `apply` puts is owned by the record it was rendered from. */
  lemma PutsOwned(p: Params, s: Sys, i: nat)
    requires JobsOk(p, s) && LoopOk(p, s) && i < |Calls(p, s.loop)| && Calls(p, s.loop)[i].Put?
    ensures Owned(p, s.demos.Keys, Calls(p, s.loop)[i].resource)
  {
    var record := s.loop.record;
    assert JobOk(p, s, record) by { assert Jobs(s.loop)[0] == record; }
    PutsAreRendered(p.place, p.name(record.Id()), record, s.loop.project, s.loop.version, i);
    assert record.Id() in s.demos.Keys;
  }

  lemma LandedKeepsCluster(p: Params, s: Sys, landed: bool)
    requires Inv(p, s)
    ensures ClusterOk(p, s.demos.Keys, Landed(p, s, landed))
  {
    if landed && CallPending(p, s.loop) && Calls(p, s.loop)[CallsDone(s.loop)].Put? {
      PutsOwned(p, s, CallsDone(s.loop));
    }
  }

  lemma AdvanceKeepsLoop(p: Params, s: Sys)
    requires LoopOk(p, s) && CallPending(p, s.loop)
    ensures LoopOk(p, s.(cluster := Landed(p, s, true), loop := Advance(s.loop)))
  {
    assert Calls(p, Advance(s.loop)) == Calls(p, s.loop);
  }

  lemma CallSucceedsKeepsInv(p: Params, s: Sys)
    requires Inv(p, s) && CallPending(p, s.loop)
    ensures Inv(p, s.(cluster := Landed(p, s, true), loop := Advance(s.loop)))
  {
    LandedKeepsCluster(p, s, true);
    AdvanceKeepsLoop(p, s);
    LoopFrame(p, s, s.(cluster := Landed(p, s, true), loop := Advance(s.loop)));
  }

  lemma CallFailsKeepsInv(p: Params, s: Sys, landed: bool)
    requires Inv(p, s) && (s.loop.Deletion? || s.loop.Application?)
    ensures Inv(p, DoCallFails(p, s, landed))
  {
    LandedKeepsCluster(p, s, landed);
    var s' := DoCallFails(p, s, landed);
    WriteKeepsRows(p, s, s.loop.record.Id(), Failed,
                   if s.loop.Deletion? then "Kubernetes deletion failed" else "Kubernetes reconciliation failed", None, None);
    assert Jobs(s'.loop) == Jobs(s.loop)[1..];
    LoopFrame(p, s, s');
  }

  /** After four removals nothing carries the name. */
  lemma DeletionClears(p: Params, s: Sys)
    requires LoopOk(p, s) && s.loop.Deletion? && s.loop.done == 4
    ensures forall id | id in s.cluster :: id.name != p.name(s.loop.record.Id())
  {
    var k := s.loop.record.Id();
    forall id | id in s.cluster ensures id.name != p.name(k) {
      var i := match id.kind case Deployment => 0 case Service => 1 case ConfigMap => 2 case Secret => 3;
      assert DeleteOps(p.name(k))[i].id == ResourceId(id.kind, p.name(k));
    }
  }

  /** So no resource loses its owner with the row. */
  lemma DeletionLeavesNoOrphan(p: Params, s: Sys)
    requires ClusterOk(p, s.demos.Keys, s.cluster) && LoopOk(p, s) && s.loop.Deletion? && s.loop.done == 4
    ensures ClusterOk(p, s.demos.Keys - {s.loop.record.Id()}, s.cluster)
  {
    var k := s.loop.record.Id();
    DeletionClears(p, s);
    forall id | id in s.cluster ensures Owned(p, s.demos.Keys - {k}, s.cluster[id]) {
      assert Owned(p, s.demos.Keys, s.cluster[id]);
    }
  }

  lemma DeletionKeepsJobs(p: Params, s: Sys, s': Sys)
    requires JobsOk(p, s) && s.loop.Deletion? && s'.loop == Between(s.loop.queue) && s'.seen == s.seen
    requires s'.demos == DeleteRecord(s.demos, s.loop.record.Id()) && s'.log == s.log - {s.loop.record.Id()}
    ensures JobsOk(p, s')
  {
    var jobs, queue := Jobs(s.loop), s.loop.queue;
    assert forall i | 0 <= i < |queue| :: queue[i] == jobs[i + 1];
    forall i | 0 <= i < |queue| ensures JobOk(p, s', queue[i]) {
      assert JobOk(p, s, jobs[i + 1]) && jobs[0].Id() != jobs[i + 1].Id();
    }
  }

  lemma FinishDeletionKeepsInv(p: Params, s: Sys)
    requires Inv(p, s) && Enabled(p, s, FinishDeletion)
    ensures Inv(p, Do(p, s, FinishDeletion))
  {
    var s' := Do(p, s, FinishDeletion);
    assert s'.demos.Keys == s.demos.Keys - {s.loop.record.Id()};
    assert ClusterOk(p, s'.demos.Keys, s'.cluster) by { DeletionLeavesNoOrphan(p, s); }
    assert JobsOk(p, s') by { DeletionKeepsJobs(p, s, s'); }
  }

  lemma FinishApplicationKeepsInv(p: Params, s: Sys, ready: bool)
    requires Inv(p, s) && Enabled(p, s, FinishApplication(ready))
    ensures Inv(p, DoFinishApplication(s, ready))
  {
    var s' := DoFinishApplication(s, ready);
    WriteKeepsRows(p, s, s.loop.record.Id(), if ready then Ready else Reconciling,
                   if ready then "deployment is ready" else "waiting for deployment readiness",
                   Some(s.loop.version), Some(s.loop.project.port));
    assert Jobs(s'.loop) == Jobs(s.loop)[1..];
    LoopFrame(p, s, s');
  }

  lemma CrashKeepsInv(p: Params, s: Sys, landed: bool)
    requires Inv(p, s) && Enabled(p, s, Crash(landed))
    ensures Inv(p, Do(p, s, Crash(landed)))
  {
    LandedKeepsCluster(p, s, landed);
  }

  lemma TickKeepsInv(p: Params, s: Sys, now: int)
    requires Inv(p, s) && s.now <= now
    ensures Inv(p, s.(now := now))
  {
    var s' := s.(now := now);
    JobsFrame(p, s, s');
    assert Calls(p, s'.loop) == Calls(p, s.loop);
  }

  lemma StepKeepsInv(p: Params, s: Sys, step: Step)
    requires Inv(p, s) && Enabled(p, s, step)
    ensures Inv(p, Do(p, s, step))
  {
    match step
    case Tick(now) => TickKeepsInv(p, s, now);
    case Deploy(request, hash) => AdmissibleFacts(p, request); DeployKeepsInv(p, s, request, hash);
    case Destroy(key, id, hash) => RepositoryCharacters(key.repository); DestroyKeepsInv(p, s, key, id, hash);
    case BeginPass(rows) => BeginPassKeepsInv(p, s, rows);
    case EndPass =>
    case BeginRecord => BeginRecordKeepsInv(p, s);
    case VaultAnswers(project, version) => VaultAnswersKeepsInv(p, s, project, version);
    case VaultFails => FailureKeepsInv(p, s, "Vault reconciliation failed");
    case CallSucceeds => CallSucceedsKeepsInv(p, s);
    case CallFails(landed) => CallFailsKeepsInv(p, s, landed);
    case FinishDeletion => FinishDeletionKeepsInv(p, s);
    case FinishApplication(ready) => FinishApplicationKeepsInv(p, s, ready);
    case Crash(landed) => CrashKeepsInv(p, s, landed);
  }

  /** Every reachable state satisfies the invariant, whatever interleaving, failure and crash. */
  lemma {:induction false} Always(p: Params, s: Sys, steps: seq<Step>)
    requires Inv(p, s) && ValidRun(p, s, steps)
    ensures Inv(p, Run(p, s, steps))
    decreases |steps|
  {
    if steps != [] {
      StepKeepsInv(p, s, steps[0]);
      Always(p, Do(p, s, steps[0]), steps[1..]);
    }
  }
}
