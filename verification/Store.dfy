/** The persistent state (src/demo_controller/store.py): the tables `demos` and `nonces`.
    Every method is one transaction. `DemoStore` changes its tables in place; the functions
    above it are the same transactions on values, and the state machine is built from them. */
module Store {
  import opened Text
  import opened Naming
  import opened Models

  /** DEMO_LIFETIME_SECONDS: three days. */
  const LIFETIME := 259_200

  datatype Key = Key(repository: string, pr: nat)

  /** The `state` column is text; the controller lists five values. */
  datatype DemoState = Pending | Reconciling | Ready | Failed | Deleting | Unlisted(text: string)

  datatype DemoRecord = DemoRecord(
    repository: string,
    pr: nat,
    commitSha: Option<string>,
    image: Option<string>,
    deliveryId: string,
    requestHash: string,
    desiredPresent: bool,
    state: DemoState,
    vaultVersion: Option<int>,
    port: Option<int>,
    message: string,
    createdAt: int,
    updatedAt: int,
    expiresAt: int)
  {
    function Id(): Key {
      Key(repository, pr)
    }
  }

  type Demos = map<Key, DemoRecord>

  /** The primary key of a row is its own repository and number, and hostnames can be formed. */
  predicate WellKeyed(demos: Demos) {
    forall k | k in demos :: demos[k].Id() == k && '/' in k.repository
  }

  /** What a delivery does to the row it addresses. */
  datatype Verdict = Changed | Repeated | Conflict

  function Judge(demos: Demos, key: Key, deliveryId: string, requestHash: string): Verdict {
    if key in demos && demos[key].deliveryId == deliveryId then
      if demos[key].requestHash != requestHash then Conflict else Repeated
    else Changed
  }

  function DeployKey(request: DeployRequest): Key {
    Key(request.repository, request.pr)
  }

  /** The row after an upsert that changes it. */
  function DeployedRow(demos: Demos, request: DeployRequest, requestHash: string, now: int): DemoRecord {
    var key := DeployKey(request);
    if key in demos then
      demos[key].(commitSha := Some(request.commitSha), image := Some(request.image),
                  deliveryId := request.deliveryId, requestHash := requestHash,
                  desiredPresent := true, state := Pending, message := "deployment accepted",
                  updatedAt := now, expiresAt := now + LIFETIME)
    else
      DemoRecord(request.repository, request.pr, Some(request.commitSha), Some(request.image),
                 request.deliveryId, requestHash, true, Pending, None, None,
                 "deployment accepted", now, now, now + LIFETIME)
  }

  function DestroyedRow(demos: Demos, key: Key, deliveryId: string, requestHash: string, now: int): DemoRecord {
    if key in demos then
      demos[key].(deliveryId := deliveryId, requestHash := requestHash, desiredPresent := false,
                  state := Deleting, message := "deletion accepted", updatedAt := now)
    else
      DemoRecord(key.repository, key.pr, None, None, deliveryId, requestHash, false, Deleting,
                 None, None, "deletion accepted", now, now, now)
  }

  function UpsertDeploy(demos: Demos, request: DeployRequest, requestHash: string, now: int): Demos {
    if Judge(demos, DeployKey(request), request.deliveryId, requestHash).Changed?
    then demos[DeployKey(request) := DeployedRow(demos, request, requestHash, now)]
    else demos
  }

  function RequestDestroy(demos: Demos, key: Key, deliveryId: string, requestHash: string, now: int): Demos {
    if Judge(demos, key, deliveryId, requestHash).Changed?
    then demos[key := DestroyedRow(demos, key, deliveryId, requestHash, now)]
    else demos
  }

  function UpdatedRow(row: DemoRecord, state: DemoState, message: string,
                      vaultVersion: Option<int>, port: Option<int>, now: int): DemoRecord {
    row.(state := state, message := Take(message, 1000), updatedAt := now,
         vaultVersion := if vaultVersion.Some? then vaultVersion else row.vaultVersion,
         port := if port.Some? then port else row.port)
  }

  /** `UPDATE ... WHERE repository=? AND pr=?`: nothing happens when the row is gone. */
  function UpdateState(demos: Demos, key: Key, state: DemoState, message: string,
                       vaultVersion: Option<int>, port: Option<int>, now: int): Demos {
    if key in demos then demos[key := UpdatedRow(demos[key], state, message, vaultVersion, port, now)] else demos
  }

  function DeleteRecord(demos: Demos, key: Key): Demos {
    demos - {key}
  }

  predicate Listed(state: DemoState) {
    !state.Unlisted?
  }

  /** `rows` are the selected rows of the table, each once, in an order the database chooses. */
  ghost predicate IsSelection(rows: seq<DemoRecord>, demos: Demos, selected: DemoRecord -> bool) {
    && (forall i | 0 <= i < |rows| :: rows[i].Id() in demos && demos[rows[i].Id()] == rows[i] && selected(rows[i]))
    && (forall i, j | 0 <= i < j < |rows| :: rows[i].Id() != rows[j].Id())
    && (forall k | k in demos && selected(demos[k]) :: demos[k] in rows)
  }

  /** The filter of `get_ready_by_hostname`. Expiry is not part of it. */
  predicate Eligible(row: DemoRecord) {
    row.desiredPresent && row.port.Some? && row.state in {Pending, Reconciling, Ready, Failed}
  }

  // ---------------------------------------------------------------- nonces

  datatype NonceKey = NonceKey(repository: string, nonce: string)
  datatype NonceRow = NonceRow(fingerprint: string, seenAt: int)
  type Nonces = map<NonceKey, NonceRow>

  function Purge(nonces: Nonces, now: int, retention: int): Nonces {
    map k | k in nonces && nonces[k].seenAt >= now - retention :: nonces[k]
  }

  function UseNonce(nonces: Nonces, key: NonceKey, fingerprint: string, now: int, retention: int): (Nonces, bool) {
    var kept := Purge(nonces, now, retention);
    if key in kept then (kept, kept[key].fingerprint == fingerprint)
    else (kept[key := NonceRow(fingerprint, now)], true)
  }

  // ---------------------------------------------------------------- the store

  datatype Result<T> = Ok(value: T) | ReusedDelivery

  class DemoStore {
    const hostnameSuffix: string
    var demos: Demos
    var nonces: Nonces

    constructor (suffix: string)
      ensures hostnameSuffix == suffix && demos == map[] && nonces == map[]
    {
      hostnameSuffix := suffix;
      demos, nonces := map[], map[];
    }

    method Use(repository: string, nonce: string, fingerprint: string, now: int, retention: int)
      returns (accepted: bool)
      modifies this`nonces
      ensures (nonces, accepted) == UseNonce(old(nonces), NonceKey(repository, nonce), fingerprint, now, retention)
    {
      nonces := map k | k in nonces && !(nonces[k].seenAt < now - retention) :: nonces[k];
      assert nonces == Purge(old(nonces), now, retention);
      var key := NonceKey(repository, nonce);
      if key in nonces {
        return nonces[key].fingerprint == fingerprint;
      }
      nonces := nonces[key := NonceRow(fingerprint, now)];
      return true;
    }

    /** Returns the row and whether it changed. */
    method Deploy(request: DeployRequest, requestHash: string, now: int)
      returns (result: Result<(DemoRecord, bool)>)
      modifies this`demos
      ensures demos == UpsertDeploy(old(demos), request, requestHash, now)
      ensures result.ReusedDelivery?
              <==> Judge(old(demos), DeployKey(request), request.deliveryId, requestHash).Conflict?
      ensures result.Ok? ==> DeployKey(request) in demos && result.value.0 == demos[DeployKey(request)]
      ensures result.Ok? ==> (result.value.1 <==> Judge(old(demos), DeployKey(request), request.deliveryId, requestHash).Changed?)
    {
      var key := DeployKey(request);
      if key in demos && demos[key].deliveryId == request.deliveryId {
        if demos[key].requestHash != requestHash {
          return ReusedDelivery;
        }
        return Ok((demos[key], false));
      }
      var createdAt := if key in demos then demos[key].createdAt else now;
      if key in demos {
        demos := demos[key := demos[key].(
          commitSha := Some(request.commitSha), image := Some(request.image),
          deliveryId := request.deliveryId, requestHash := requestHash,
          desiredPresent := true, state := Pending, message := "deployment accepted",
          updatedAt := now, expiresAt := now + LIFETIME)];
      } else {
        demos := demos[key := DemoRecord(
          request.repository, request.pr, Some(request.commitSha), Some(request.image),
          request.deliveryId, requestHash, true, Pending, None, None,
          "deployment accepted", createdAt, now, now + LIFETIME)];
      }
      return Ok((demos[key], true));
    }

    method Destroy(repository: string, pr: nat, deliveryId: string, requestHash: string, now: int)
      returns (result: Result<DemoRecord>)
      modifies this`demos
      ensures demos == RequestDestroy(old(demos), Key(repository, pr), deliveryId, requestHash, now)
      ensures result.ReusedDelivery? <==> Judge(old(demos), Key(repository, pr), deliveryId, requestHash).Conflict?
      ensures result.Ok? ==> Key(repository, pr) in demos && result.value == demos[Key(repository, pr)]
    {
      var key := Key(repository, pr);
      if key in demos && demos[key].deliveryId == deliveryId {
        if demos[key].requestHash != requestHash {
          return ReusedDelivery;
        }
        return Ok(demos[key]);
      }
      if key in demos {
        demos := demos[key := demos[key].(
          deliveryId := deliveryId, requestHash := requestHash, desiredPresent := false,
          state := Deleting, message := "deletion accepted", updatedAt := now)];
      } else {
        demos := demos[key := DemoRecord(
          repository, pr, None, None, deliveryId, requestHash, false, Deleting, None, None,
          "deletion accepted", now, now, now)];
      }
      return Ok(demos[key]);
    }

    method Update(key: Key, state: DemoState, message: string,
                  vaultVersion: Option<int>, port: Option<int>, now: int)
      modifies this`demos
      ensures demos == UpdateState(old(demos), key, state, message, vaultVersion, port, now)
    {
      if key in demos {
        var row := demos[key].(state := state, message := Take(message, 1000), updatedAt := now);
        if vaultVersion.Some? {
          row := row.(vaultVersion := vaultVersion);
        }
        if port.Some? {
          row := row.(port := port);
        }
        demos := demos[key := row];
      }
    }

    method Delete(key: Key)
      modifies this`demos
      ensures demos == DeleteRecord(old(demos), key)
    {
      demos := map k | k in demos && k != key :: demos[k];
    }

    /** `SELECT` with a filter, in whatever order the database returns the rows. */
    method Select(selected: DemoRecord -> bool) returns (rows: seq<DemoRecord>)
      requires WellKeyed(demos)
      ensures IsSelection(rows, demos, selected)
    {
      rows := [];
      var left := demos.Keys;
      while left != {}
        invariant left <= demos.Keys
        invariant forall i | 0 <= i < |rows| ::
                    rows[i].Id() in demos && rows[i].Id() !in left && demos[rows[i].Id()] == rows[i] && selected(rows[i])
        invariant forall i, j | 0 <= i < j < |rows| :: rows[i].Id() != rows[j].Id()
        invariant forall k | k in demos && k !in left && selected(demos[k]) :: demos[k] in rows
        decreases left
      {
        var key :| key in left;
        left := left - {key};
        if selected(demos[key]) {
          rows := rows + [demos[key]];
        }
      }
    }

    method ListReconcilable() returns (rows: seq<DemoRecord>)
      requires WellKeyed(demos)
      ensures IsSelection(rows, demos, (row: DemoRecord) => Listed(row.state))
    {
      rows := Select((row: DemoRecord) => Listed(row.state));
    }

    /** The scan returns a matching eligible row exactly when one exists. */
    method GetReadyByHostname(requested: string) returns (found: Option<DemoRecord>)
      requires WellKeyed(demos)
      ensures found.Some? ==> && found.value.Id() in demos && demos[found.value.Id()] == found.value
                              && Eligible(found.value)
                              && '/' in found.value.repository
                              && Hostname(found.value.repository, found.value.pr, hostnameSuffix) == requested
      ensures found.None? ==> forall k | k in demos && Eligible(demos[k]) ::
                                Hostname(k.repository, k.pr, hostnameSuffix) != requested
    {
      var rows := Select(Eligible);
      for i := 0 to |rows|
        invariant forall j | 0 <= j < i ::
                    && '/' in rows[j].repository
                    && Hostname(rows[j].repository, rows[j].pr, hostnameSuffix) != requested
      {
        var record := rows[i];
        assert '/' in record.Id().repository;
        if Hostname(record.repository, record.pr, hostnameSuffix) == requested {
          return Some(record);
        }
      }
      return None;
    }
  }

  /** A hostname selects at most one row when stored projects differ in their truncated slugs. */
  lemma RouteIsUnique(demos: Demos, a: Key, b: Key, suffix: string)
    requires WellKeyed(demos) && a in demos && b in demos
    requires forall k, l | k in demos && l in demos && HostSlug(k.repository) == HostSlug(l.repository) ::
               k.repository == l.repository
    requires Hostname(a.repository, a.pr, suffix) == Hostname(b.repository, b.pr, suffix)
    ensures a == b
  {
    HostsEqualIff(a.repository, a.pr, b.repository, b.pr, suffix);
  }

  /** The condition is needed: demos of two owners whose projects share a name have one hostname. */
  lemma OwnersShareHosts(owner1: string, owner2: string, project: string, pr: nat, suffix: string)
    requires owner1 != owner2 && '/' !in owner1 && '/' !in owner2 && '/' !in project
    ensures var a, b := Key(owner1 + "/" + project, pr), Key(owner2 + "/" + project, pr);
            a != b && Hostname(a.repository, pr, suffix) == Hostname(b.repository, pr, suffix)
  {
    ProjectPart(owner1, project);
    ProjectPart(owner2, project);
    assert (owner1 + "/" + project)[|owner1|] == '/' && (owner2 + "/" + project)[|owner2|] == '/';
    if owner1 + "/" + project == owner2 + "/" + project { SameEnd(owner1, owner2, project); }
  }

  lemma {:induction false} ProjectPart(owner: string, project: string)
    requires '/' !in project
    ensures AfterLast(owner + "/" + project, '/') == project
  {
    var s := owner + "/" + project;
    if project != [] {
      ProjectPart(owner, project[..|project| - 1]);
      assert s[..|s| - 1] == owner + "/" + project[..|project| - 1];
      assert s[|s| - 1] == project[|project| - 1];
    }
  }
}
