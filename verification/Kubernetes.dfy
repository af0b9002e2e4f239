/** Rendering, applying and deleting a demo's resources (src/demo_controller/kubernetes.py).
    The cluster is a map; a client call either takes effect or not, and may fail either way. */
module Kubernetes {
  import opened Text
  import opened Models
  import opened Store

  datatype Kind = ConfigMap | Secret | Service | Deployment

  datatype ResourceId = ResourceId(kind: Kind, name: string)

  datatype Meta = Meta(name: string, namespace: string, owner: string)

  datatype Resource =
    | ConfigMapOf(meta: Meta, data: map<string, string>)
    | SecretOf(meta: Meta, data: map<string, string>)
    | ServiceOf(meta: Meta, selector: string, port: int)
    | DeploymentOf(meta: Meta, selector: string, image: Option<string>, containerPort: int,
                   vaultVersion: int, healthPath: string, configMapRef: Option<string>, secretRef: Option<string>)
  {
    function Id(): ResourceId {
      ResourceId(if ConfigMapOf? then ConfigMap else if SecretOf? then Secret
                 else if ServiceOf? then Service else Deployment, meta.name)
    }
  }

  type Cluster = map<ResourceId, Resource>

  datatype Rendered = Rendered(
    deployment: Resource, service: Resource, configMap: Option<Resource>, secret: Option<Resource>)
  {
    /** `all`: what is applied, in order. */
    function All(): seq<Resource> {
      (if configMap.Some? then [configMap.value] else [])
      + (if secret.Some? then [secret.value] else [])
      + [service, deployment]
    }

    /** The resource of a kind, if the rendering has one. */
    function Part(kind: Kind): Option<Resource> {
      match kind
      case ConfigMap => configMap
      case Secret => secret
      case Service => Some(service)
      case Deployment => Some(deployment)
    }
  }

  datatype Place = Place(namespace: string, owner: string)

  function Render(place: Place, name: string, record: DemoRecord, project: ProjectConfig, version: int): Rendered {
    var meta := Meta(name, place.namespace, place.owner);
    var configMap := if project.environment != map[] then Some(ConfigMapOf(meta, project.environment)) else None;
    var secret := if project.secrets != map[] then Some(SecretOf(meta, project.secrets)) else None;
    Rendered(
      DeploymentOf(meta, name, record.image, project.port, version, project.healthPath,
                   if configMap.Some? then Some(name) else None, if secret.Some? then Some(name) else None),
      ServiceOf(meta, name, project.port), configMap, secret)
  }

  datatype Op = Put(resource: Resource) | Remove(id: ResourceId)

  function Target(op: Op): ResourceId {
    if op.Put? then op.resource.Id() else op.id
  }

  function AfterOp(c: Cluster, op: Op): Cluster {
    match op
    case Put(resource) => c[resource.Id() := resource]
    case Remove(id) => c - {id}
  }

  function Exec(c: Cluster, ops: seq<Op>): Cluster {
    if ops == [] then c else AfterOp(Exec(c, ops[..|ops| - 1]), ops[|ops| - 1])
  }

  function Puts(resources: seq<Resource>): seq<Op> {
    seq(|resources|, i requires 0 <= i < |resources| => Put(resources[i]))
  }

  /** The stale optional resources that `apply` removes. */
  function Stale(r: Rendered): seq<Op> {
    var name := r.deployment.meta.name;
    (if r.configMap.None? then [Remove(ResourceId(ConfigMap, name))] else [])
    + (if r.secret.None? then [Remove(ResourceId(Secret, name))] else [])
  }

  /** Every call of `apply` that changes the cluster, in order. */
  function ApplyOps(r: Rendered): seq<Op> {
    Puts(r.All()) + Stale(r)
  }

  function DeleteOps(name: string): seq<Op> {
    [Remove(ResourceId(Deployment, name)), Remove(ResourceId(Service, name)),
     Remove(ResourceId(ConfigMap, name)), Remove(ResourceId(Secret, name))]
  }

  function At(c: Cluster, id: ResourceId): Option<Resource> {
    if id in c then Some(c[id]) else None
  }

  lemma ExecStep(c: Cluster, ops: seq<Op>, i: nat)
    requires i < |ops|
    ensures Exec(c, ops[..i + 1]) == AfterOp(Exec(c, ops[..i]), ops[i])
  {
    assert ops[..i + 1][..i] == ops[..i];
  }

  lemma {:induction false} ExecElsewhere(c: Cluster, ops: seq<Op>, id: ResourceId)
    requires forall i | 0 <= i < |ops| :: Target(ops[i]) != id
    ensures At(Exec(c, ops), id) == At(c, id)
  {
    if ops != [] { ExecElsewhere(c, ops[..|ops| - 1], id); }
  }

  /** The last operation on an identifier decides. */
  lemma {:induction false} ExecDecides(c: Cluster, ops: seq<Op>, k: nat)
    requires k < |ops|
    requires forall i | k < i < |ops| :: Target(ops[i]) != Target(ops[k])
    ensures At(Exec(c, ops), Target(ops[k])) == if ops[k].Put? then Some(ops[k].resource) else None
    decreases |ops|
  {
    if k < |ops| - 1 { ExecDecides(c, ops[..|ops| - 1], k); }
  }

  /** The parts of a rendering are of their kinds and all carry one name. */
  predicate WellRendered(r: Rendered, name: string) {
    forall kind :: r.Part(kind).Some? ==> r.Part(kind).value.Id() == ResourceId(kind, name)
  }

  /** What `apply` does for one kind: put the rendered part, or remove what is stale. */
  function KindOp(r: Rendered, name: string, kind: Kind): Op {
    if r.Part(kind).Some? then Put(r.Part(kind).value) else Remove(ResourceId(kind, name))
  }

  lemma KindTarget(r: Rendered, name: string, kind: Kind)
    requires WellRendered(r, name)
    ensures Target(KindOp(r, name, kind)) == ResourceId(kind, name)
  {
  }

  /** The kinds in the order `apply` comes to them. */
  function KindOrder(r: Rendered): (kinds: seq<Kind>)
    ensures |kinds| == 4
    ensures ConfigMap in kinds && Secret in kinds && Service in kinds && Deployment in kinds
    ensures forall i, j | 0 <= i < j < 4 :: kinds[i] != kinds[j]
  {
    if r.configMap.Some? && r.secret.Some? then [ConfigMap, Secret, Service, Deployment]
    else if r.configMap.Some? then [ConfigMap, Service, Deployment, Secret]
    else if r.secret.Some? then [Secret, Service, Deployment, ConfigMap]
    else [Service, Deployment, ConfigMap, Secret]
  }

  lemma PutsJoin(a: seq<Resource>, b: seq<Resource>)
    ensures Puts(a + b) == Puts(a) + Puts(b)
  {
  }

  lemma PutsOfTwo(a: Resource, b: Resource)
    ensures Puts([a, b]) == [Put(a), Put(b)]
  {
  }

  lemma PutsOfOption(a: Option<Resource>)
    ensures Puts(if a.Some? then [a.value] else []) == if a.Some? then [Put(a.value)] else []
  {
  }

  lemma ApplyOrder(r: Rendered, name: string)
    requires WellRendered(r, name)
    ensures var kinds := KindOrder(r);
            ApplyOps(r) == [KindOp(r, name, kinds[0]), KindOp(r, name, kinds[1]),
                            KindOp(r, name, kinds[2]), KindOp(r, name, kinds[3])]
  {
    assert r.Part(Deployment).value.Id().name == name;
    var first := if r.configMap.Some? then [r.configMap.value] else [];
    var second := if r.secret.Some? then [r.secret.value] else [];
    assert Puts(r.All()) == Puts(first) + Puts(second) + [Put(r.service), Put(r.deployment)] by {
      PutsJoin(first + second, [r.service, r.deployment]);
      PutsJoin(first, second);
      PutsOfTwo(r.service, r.deployment);
    }
    PutsOfOption(r.configMap);
    PutsOfOption(r.secret);
  }

  /** Each kind has its operation, and no identifier is the target of two. */
  lemma ApplyTargets(r: Rendered, name: string)
    requires WellRendered(r, name)
    ensures |ApplyOps(r)| == 4
    ensures forall kind: Kind :: KindOp(r, name, kind) in ApplyOps(r)
    ensures forall i | 0 <= i < 4 :: Target(ApplyOps(r)[i]).name == name
    ensures forall i, j | 0 <= i < j < 4 :: Target(ApplyOps(r)[i]) != Target(ApplyOps(r)[j])
  {
    ApplyOrder(r, name);
    forall kind: Kind ensures KindOp(r, name, kind) in ApplyOps(r) {
      assert kind in KindOrder(r) by { match kind case ConfigMap => case Secret => case Service => case Deployment => }
      var i :| 0 <= i < |KindOrder(r)| && KindOrder(r)[i] == kind;
      assert ApplyOps(r)[i] == KindOp(r, name, kind);
    }
    assert forall i | 0 <= i < 4 :: ApplyOps(r)[i] == KindOp(r, name, KindOrder(r)[i]);
    forall i | 0 <= i < 4 ensures Target(ApplyOps(r)[i]) == ResourceId(KindOrder(r)[i], name) {
      KindTarget(r, name, KindOrder(r)[i]);
    }
  }

  /** A complete `apply` leaves exactly the rendering under its name, stale optional resources
      included, and touches nothing else, whatever the cluster held before. */
  lemma ApplyIsExact(c: Cluster, r: Rendered, name: string, id: ResourceId)
    requires WellRendered(r, name)
    ensures At(Exec(c, ApplyOps(r)), id) == if id.name == name then r.Part(id.kind) else At(c, id)
  {
    ApplyTargets(r, name);
    var ops := ApplyOps(r);
    if id.name == name {
      var i :| 0 <= i < |ops| && ops[i] == KindOp(r, name, id.kind);
      KindTarget(r, name, id.kind);
      ExecDecides(c, ops, i);
    } else {
      ExecElsewhere(c, ops, id);
    }
  }

  /** A complete `delete` removes all four kinds under the name and nothing else. */
  lemma DeleteIsExact(c: Cluster, name: string, id: ResourceId)
    ensures At(Exec(c, DeleteOps(name)), id) == if id.name == name then None else At(c, id)
  {
    var ops := DeleteOps(name);
    if id.name == name {
      var i := match id.kind case Deployment => 0 case Service => 1 case ConfigMap => 2 case Secret => 3;
      assert Target(ops[i]) == id;
      ExecDecides(c, ops, i);
    } else {
      ExecElsewhere(c, ops, id);
    }
  }

  lemma RenderWellRendered(place: Place, name: string, record: DemoRecord, project: ProjectConfig, version: int)
    ensures WellRendered(Render(place, name, record, project, version), name)
  {
  }

  /** Whatever `apply` puts carries the name, and a Deployment the record's image. */
  lemma PutsAreRendered(place: Place, name: string, record: DemoRecord, project: ProjectConfig, version: int, i: nat)
    requires var ops := ApplyOps(Render(place, name, record, project, version));
             i < |ops| && ops[i].Put?
    ensures var resource := ApplyOps(Render(place, name, record, project, version))[i].resource;
            resource.meta.name == name && (resource.DeploymentOf? ==> resource.image == record.image)
  {
    var r := Render(place, name, record, project, version);
    assert ApplyOps(r)[i].resource in r.All();
  }

  /** The Deployment is applied after all else that the rendering has, and before anything is removed. */
  lemma DeploymentComesLast(r: Rendered, name: string, i: nat, j: nat)
    requires WellRendered(r, name) && i < |ApplyOps(r)| && j < |ApplyOps(r)|
    requires ApplyOps(r)[i] == Put(r.deployment)
    ensures (ApplyOps(r)[j].Put? && j != i ==> j < i) && (ApplyOps(r)[j].Remove? ==> i < j)
  {
    ApplyOrder(r, name);
  }

  /** The Deployment is the first to be removed. */
  lemma DeploymentGoesFirst(name: string, j: nat)
    requires j < |DeleteOps(name)|
    ensures Target(DeleteOps(name)[j]).kind.Deployment? <==> j == 0
  {
  }

  // ---------------------------------------------------------------- what runs

  /** The variables a pod finds: those of its ConfigMap and of its Secret, as far as they exist. */
  function PodEnvironment(c: Cluster, deployment: Resource): map<string, string>
    requires deployment.DeploymentOf?
  {
    var plain := if deployment.configMapRef.Some? then At(c, ResourceId(ConfigMap, deployment.configMapRef.value)) else None;
    var secret := if deployment.secretRef.Some? then At(c, ResourceId(Secret, deployment.secretRef.value)) else None;
    (if plain.Some? && plain.value.ConfigMapOf? then plain.value.data else map[])
    + (if secret.Some? && secret.value.SecretOf? then secret.value.data else map[])
  }

  /** The workload runs the record's image, finds every configured variable and secret and no other, and
      is probed at the configured path; the Service selects it and leads to its port; both are in the
      controller's namespace, under its ownership. */
  predicate RunsAsConfigured(c: Cluster, place: Place, name: string, record: DemoRecord, project: ProjectConfig, version: int) {
    var deployed, service := At(c, ResourceId(Deployment, name)), At(c, ResourceId(Service, name));
    && deployed.Some? && deployed.value.DeploymentOf? && service.Some? && service.value.ServiceOf?
    && (var pod := PodEnvironment(c, deployed.value);
        && pod.Keys == project.environment.Keys + project.secrets.Keys
        && (forall v | v in project.environment :: pod[v] == project.environment[v])
        && (forall v | v in project.secrets :: pod[v] == project.secrets[v]))
    && service.value.selector == deployed.value.selector
    && service.value.port == deployed.value.containerPort == project.port
    && deployed.value.vaultVersion == version && deployed.value.image == record.image
    && deployed.value.healthPath == project.healthPath
    && (forall kind: Kind :: At(c, ResourceId(kind, name)).Some? ==>
          At(c, ResourceId(kind, name)).value.meta == Meta(name, place.namespace, place.owner))
  }

  lemma RenderedMeta(place: Place, name: string, record: DemoRecord, project: ProjectConfig, version: int)
    ensures forall kind: Kind :: Render(place, name, record, project, version).Part(kind).Some? ==>
              Render(place, name, record, project, version).Part(kind).value.meta == Meta(name, place.namespace, place.owner)
  {
  }

  /** That plain and secret names are disjoint is what makes the two sources one environment. */
  lemma RenderedRuns(c: Cluster, place: Place, name: string, record: DemoRecord, project: ProjectConfig, version: int)
    requires ValidConfig(project)
    requires forall kind: Kind :: At(c, ResourceId(kind, name)) == Render(place, name, record, project, version).Part(kind)
    ensures RunsAsConfigured(c, place, name, record, project, version)
  {
    var r := Render(place, name, record, project, version);
    assert At(c, ResourceId(Deployment, name)) == Some(r.deployment) && At(c, ResourceId(Service, name)) == Some(r.service);
    assert At(c, ResourceId(ConfigMap, name)) == r.configMap && At(c, ResourceId(Secret, name)) == r.secret;
    assert PodEnvironment(c, r.deployment) == project.environment + project.secrets;
    RenderedMeta(place, name, record, project, version);
  }

  // ---------------------------------------------------------------- availability

  /** What the cluster reports of a Deployment. */
  datatype Status = Status(observedGeneration: Option<int>, availableReplicas: Option<int>)
  datatype Observed = Observed(replicas: Option<int>, generation: Option<int>, status: Option<Status>)

  /** Python's `n or m`. */
  function OrElse(n: Option<int>, m: int): int {
    if n.Some? && n.value != 0 then n.value else m
  }

  predicate IsAvailable(d: Observed) {
    && d.status.Some? && d.status.value.observedGeneration == d.generation
    && OrElse(d.status.value.availableReplicas, 0) >= OrElse(d.replicas, 1)
  }

  /** With the one replica that is rendered: the controller has seen the present generation, and a
      replica is available. */
  lemma AvailableIff(d: Observed)
    requires d.replicas == Some(1)
    ensures IsAvailable(d) <==>
              && d.status.Some? && d.status.value.observedGeneration == d.generation
              && d.status.value.availableReplicas.Some? && d.status.value.availableReplicas.value >= 1
  {
  }

  // ---------------------------------------------------------------- the client

  class KubernetesReconciler {
    var cluster: Cluster

    constructor (cluster: Cluster)
      ensures this.cluster == cluster
    {
      this.cluster := cluster;
    }

    /** A server-side apply: on failure the change may or may not have been made. */
    method ClientApply(resource: Resource) returns (ok: bool)
      modifies this
      ensures cluster == AfterOp(old(cluster), Put(resource)) || (!ok && cluster == old(cluster))
    {
      var reached: bool := *;
      if !reached {
        return false;
      }
      cluster := cluster[resource.Id() := resource];
      ok := *;
    }

    /** `_delete_if_exists`: a 404 answer counts as success. */
    method DeleteIfExists(id: ResourceId) returns (ok: bool)
      modifies this
      ensures cluster == AfterOp(old(cluster), Remove(id)) || (!ok && cluster == old(cluster))
    {
      var reached: bool := *;
      if !reached {
        return false;
      }
      if id !in cluster {
        return true;
      }
      cluster := cluster - {id};
      ok := *;
    }

    /** `apply`: None if a client call raises an exception. `done` calls succeeded; `landed` says that the
        failing call took effect as well. */
    method Apply(r: Rendered) returns (ready: Option<bool>, ghost done: nat, ghost landed: bool, ghost seen: Option<Observed>)
      modifies this
      ensures done <= |ApplyOps(r)| && (landed ==> done < |ApplyOps(r)|)
      ensures cluster == Exec(old(cluster), ApplyOps(r)[..done + if landed then 1 else 0])
      ensures ready.Some? ==> done == |ApplyOps(r)| && !landed
      ensures (ready.Some? <==> seen.Some?) && (ready.Some? ==> (ready.value <==> IsAvailable(seen.value)))
    {
      ghost var ops := ApplyOps(r);
      var resources := r.All();
      done, landed, seen := 0, false, None;
      for i := 0 to |resources|
        invariant done == i && !landed && cluster == Exec(old(cluster), ops[..i])
      {
        ExecStep(old(cluster), ops, i);
        var ok := ClientApply(resources[i]);
        if !ok {
          landed := cluster != Exec(old(cluster), ops[..i]);
          return None, done, landed, None;
        }
        done := done + 1;
      }
      var name := r.deployment.meta.name;
      if r.configMap.None? {
        ExecStep(old(cluster), ops, done);
        assert ops[done] == Remove(ResourceId(ConfigMap, name));
        var ok := DeleteIfExists(ResourceId(ConfigMap, name));
        if !ok {
          landed := cluster != Exec(old(cluster), ops[..done]);
          return None, done, landed, None;
        }
        done := done + 1;
      }
      if r.secret.None? {
        ExecStep(old(cluster), ops, done);
        assert ops[done] == Remove(ResourceId(Secret, name));
        var ok := DeleteIfExists(ResourceId(Secret, name));
        if !ok {
          landed := cluster != Exec(old(cluster), ops[..done]);
          return None, done, landed, None;
        }
        done := done + 1;
      }
      assert ops[..done] == ops;
      var answered: bool := *;
      if !answered {
        return None, done, false, None;
      }
      var deployment: Observed := *;
      var status := deployment.status;
      var available := false;
      if status.Some? && status.value.observedGeneration == deployment.generation {
        var desired := OrElse(deployment.replicas, 1);
        available := OrElse(status.value.availableReplicas, 0) >= desired;
      }
      return Some(available), done, false, Some(deployment);
    }

    /** `delete`: false if a client call raises anything but a 404. */
    method Delete(name: string) returns (ok: bool, ghost done: nat, ghost landed: bool)
      modifies this
      ensures done <= 4 && (landed ==> done < 4)
      ensures cluster == Exec(old(cluster), DeleteOps(name)[..done + if landed then 1 else 0])
      ensures ok <==> done == 4
    {
      var kinds := [Deployment, Service, ConfigMap, Secret];
      ghost var ops := DeleteOps(name);
      done, landed := 0, false;
      for i := 0 to 4
        invariant done == i && !landed && cluster == Exec(old(cluster), ops[..i])
      {
        ExecStep(old(cluster), ops, i);
        var removed := DeleteIfExists(ResourceId(kinds[i], name));
        if !removed {
          landed := cluster != Exec(old(cluster), ops[..i]);
          return false, done, landed;
        }
        done := done + 1;
      }
      return true, done, false;
    }
  }
}
