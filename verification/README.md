# Demo controller: a verified model

The demo controller deploys pull-request demos. Signed deliveries tell it which demos shall exist; a
store remembers them; a reconciliation loop drives a Kubernetes cluster towards the store one record
at a time; a router sends each hostname to the demo that serves it. Configuration comes from Vault.
This project models that program in Dafny and proves what it keeps, over every run.

| File | Models |
|---|---|
| `ControlPlane.dfy` | deliveries, loop, cluster and clock as one state machine: a delivery may arrive whenever the loop awaits, every cluster call may fail before or after taking effect, and the process may crash between any two steps |
| `Safety.dfy`, `Guarantees.dfy` | the inductive invariant of that machine and what follows for every reachable state and every run |
| `Lifecycle.dfy` | which step gives a record which state, and what a delivery leaves |
| `Retention.dfy` | which resources and which port a demo that was ready once keeps |
| `Witnesses.dfy` | runs in which the machine does what one would not expect |
| `Convergence.dfy` | what a pass achieves when nothing disturbs it, and that it ends |
| `Reconciler.dfy` | the loop as imperative code, with its store, cluster and Vault client; each execution is a run of the machine |
| `Store.dfy`, `Kubernetes.dfy` | the tables and the cluster, changed in place, with the functions that specify them |
| `Vault.dfy`, `VaultTokens.dfy`, `VaultSession.dfy`, `VaultTasks.dfy` | the Vault client alone on an arbitrary network, its tokens, the client as imperative code, and under concurrent callers |
| `Auth.dfy`, `Signing.dfy` | signatures, nonces and rate limits; what a signature covers and who authenticates |
| `Api.dfy`, `Requests.dfy`, `Proxy.dfy` | the deploy and destroy handlers and their runs; what a body says and what each guard answers; the lookup of the proxy |
| `NonceLife.dfy`, `Replay.dfy` | how long a nonce row is kept and what it keeps out, and what a request presented again does, over runs of the handlers |
| `RateRuns.dfy` | the rate limit over those runs, restarts included |
| `Interface.dfy` | an accepted request is a step of the machine |
| `Naming.dfy`, `Slugs.dfy`, `Models.dfy`, `Text.dfy` | resource names and hostnames as printers with parsers; laws for the slugs in them; the validators' regular expressions with a matching relation |

The classes (`DemoStore`, `KubernetesReconciler`, `ReconciliationLoop`, `Authenticator`, `Handlers`,
`VaultClient`) change their fields as the program does. Each method is proved equal to a function of
the old state, and the theorems are about runs of those functions. `ReconciliationLoop` keeps a trace
of machine steps, so all guarantees hold of every state its methods can reach.

Some properties one would expect do not hold of the code as it is. The lemmas named with each give the
input that shows it and the exact condition:

* An accepted deployment can be lost. `delete_record` removes the row whatever arrived during the
  deletion (`DeploymentCanBeLost`, `DeploymentLostIff`).
* A record can turn ready while an older image runs (`ReadyOnOldImage`, `ReadyRunsDeliveredImage`).
* An expired demo is routed until the delete branch takes it up, and again if its deletion fails
  (`ExpiredBeforeThePass`, `ExpiredAndRouted`, `RoutedIff`, `FailedExpiryRestoresRoute`).
* The port of a routed row can differ from that of its Service (`PortsDiffer`, `PortsAgreeIff`).
* The documentation promises idempotent retries, and that intercepted requests cannot be replayed. A
  nonce row keeps out another message under the same nonce and nothing else: the same request is accepted
  again while its signature is fresh and the rate allows (`AcceptedAgainIff`). The store remembers one
  delivery ID for each demo, so a repeat is without effect exactly if the demo's row is still there and
  no other delivery for it was accepted in between (`RepeatIsNoOpIff`, `ReplayedDeployIff`, `ReplayedDestroyIff`). A deploy at 0, a
  destroy at 10 and the identical deploy at 20 leave the demo wanted (`DestroyedDemoReturns`,
  `ReturnsWithinSeconds`).
* A repeat does not renew its nonce row, so a request with a late timestamp can be fresh after the row is
  gone (`RowFoundIff`).
* The rate limit holds for every limit and load exactly if no clock reading comes less than a minute from
  one that the deque has forgotten, because a reading a minute beyond it or a restart came in between
  (`RateHoldsIff`, `StepBackBreaksRate`, `RestartBreaksRate`, `RestartDoublesRate`).
* Resource names are not injective (`LongNumbersCollide`, `NamesEqualIff`, `NumberRecovered`).
* One hostname can stand for demos of two owners (`OwnersShareHosts`, `HostsEqualIff`).
* The documented image namespace is no wider than the repository: for an image that passed the deploy
  checks, the namespace check accepts the repository itself and nothing else (`NamespaceCheckIff`).

## Model

| member | source | states |
|---|---|---|
| Guarantees.NoOrphans | src/demo_controller/reconciler.py:67-109 | in every reachable state, after any failures, partial operations, crashes and deliveries, each cluster resource carries the name of a record still stored, and each Deployment runs an authorised image of that record's repository |
| Guarantees.RecordOutlivesResources | src/demo_controller/reconciler.py:68-82 | a step that removes a row leaves no resource under its name |
| Guarantees.DeliveriesDecide | src/demo_controller/store.py:120-203 | in every reachable state a row exists iff deliveries for its key are on record since its last deletion, and its API-owned columns are the closed form of these deliveries: last effective delivery, last effective deploy, first delivery |
| Guarantees.HandledAsDelivered | src/demo_controller/reconciler.py:54-67 | each record the pass holds is what the deliveries asked for at the snapshot, equals the present row unless an effective delivery came since, and its image is current unless a deploy came since |
| Guarantees.DeploymentLostIff | src/demo_controller/store.py:260-262 | deleting a row drops a live deployment iff the key's last effective delivery is a deploy that arrived after the snapshot and has not expired |
| Witnesses.DeploymentCanBeLost | src/demo_controller/reconciler.py:68-82 | for every admissible deploy under a new delivery ID there is a run in which it is accepted, its demo is wanted and unexpired, and the next step removes its row |
| Guarantees.CompletedApplyIsExact | src/demo_controller/kubernetes.py:146-153 | in every run, once an apply has made its calls, the cluster holds under the name exactly the rendering of the record, whatever earlier passes left there |
| Guarantees.WorkloadAsConfigured | src/demo_controller/kubernetes.py:57-137 | in every run, after a completed apply the pod runs the record's image, finds every configured variable and secret with its value and no other, is probed at the configured path, and the Service selects it and leads to the configured port; all is in the controller's namespace and ownership |
| Guarantees.ReadyRunsDeliveredImage | src/demo_controller/reconciler.py:96-109 | when a record turns ready, the image asked for at the snapshot runs; it is the row's image iff no deploy came since or the last one asks for the same image |
| Witnesses.ReadyOnOldImage | src/demo_controller/reconciler.py:96-109 | for any two admissible deploys of a demo with different images there is a run that ends ready on the first while the row asks for the second |
| Guarantees.AppliedInsideNamespace | src/demo_controller/reconciler.py:89-97 | in every run, a rendering under a Vault namespace is applied only if the namespace is the record's repository |
| Guarantees.NamespaceAllowsIff | src/demo_controller/reconciler.py:89-92 | in every run a configuration passes the namespace check of the record in hand iff it names no namespace or the record's repository |
| Guarantees.FixedLifetime | src/demo_controller/store.py:131-160 | in every reachable state expiry is 259200 seconds after the last effective deploy, or the creation time if none was deployed |
| Guarantees.LifetimeMovesOnlyByDeploy | src/demo_controller/store.py:131-160 | no step other than a deploy of the key under a new delivery ID moves a row's expiry |
| Guarantees.RowShape | src/demo_controller/store.py:205-258 | port iff Vault version; ready implies a port in range; pending implies wanted; wanted implies commit and image; each snapshot contains every row |
| Lifecycle.StateAfter | src/demo_controller/reconciler.py:67-130 | which step leaves a row in which of the five states; in particular a row becomes ready iff an apply of its record finishes and reported its Deployment available, and an unavailable one leaves it reconciling; what is not touched stays as it is |
| Lifecycle.MessageAfter | src/demo_controller/reconciler.py:67-130 | which message goes with each of these states |
| Lifecycle.ReadyWasReported | src/demo_controller/reconciler.py:102-109 | over whole runs, a row that is ready was made so by a finished apply of its record that reported availability |
| Lifecycle.DeployRestoresRoute | src/demo_controller/store.py:135-149 | in every reachable state an effective deploy makes the demo pending, whatever its state was, keeps its port, and leaves it routed iff it had one |
| Lifecycle.DestroyLeaves | src/demo_controller/store.py:181-199 | an effective destroy leaves the demo deleting and not routed, with image, port and times as they were |
| Guarantees.RouteCutIff | src/demo_controller/store.py:219-233 | a step ends the routing of a routed record iff it is an effective destroy of it, or the delete branch taking it up, or the removal of its row |
| Guarantees.RouteRetained | src/demo_controller/reconciler.py:83-130 | over whole runs, redeploys, Vault failures, failed or partial applies and crashes keep a routed record routed |
| Retention.ResourcesRetained | src/demo_controller/reconciler.py:101-130 | after a finished apply of a wanted demo, over whole runs in which its route is not cut and no other stored demo has its name, its route, its Deployment and its Service all stay |
| Retention.DisappearsIff | src/demo_controller/kubernetes.py:146-177 | a Deployment or Service disappears in a step iff its removal by the delete branch of a record of that name lands |
| Retention.PortsAgreeIff | src/demo_controller/reconciler.py:102-109 | whether the row's port is the Service's port after a step: always when an apply of the demo finishes, iff the ports are equal when a new Service lands, and otherwise as before |
| Witnesses.PortsDiffer | src/demo_controller/kubernetes.py:147-148 | for two configurations with different ports there is a run that ends with the demo routed to the first port and its Service on the second |
| Retention.RoutedIff | src/demo_controller/store.py:219-233 | in every reachable state a record is routed iff it is wanted, has a port and is not being deleted; expiry is no part of it |
| Guarantees.PortOnlyFromApply | src/demo_controller/reconciler.py:102-109 | a row's port changes only by the write after a completed apply of that record, to the applied port |
| Guarantees.DeliveryDecidesPresence | src/demo_controller/store.py:120-203 | in every reachable state an accepted deploy leaves the demo wanted and an accepted destroy unwanted, repeats included |
| Guarantees.RepeatIsNoOpIff | src/demo_controller/store.py:131-134 | in every reachable state an accepted delivery leaves the store as it was iff its demo has a row and the last delivery accepted for it carries the same ID |
| Guarantees.DestroyIsDecisive | src/demo_controller/store.py:169-258 | after an accepted destroy, over whole runs without a further deploy of the key, the demo is never routed, whatever an in-flight reconcile writes |
| Guarantees.FailedExpiryRestoresRoute | src/demo_controller/reconciler.py:74-81 | when deleting a record fails, it is routed afterwards iff its row is still wanted and has a port, expired or not |
| Witnesses.ExpiredAndRouted | src/demo_controller/store.py:219-233 | for every admissible deploy there is a run that ends with the demo expired and routed |
| Witnesses.ExpiredBeforeThePass | src/demo_controller/store.py:219-233 | for every admissible deploy there is a run after which the demo is ready, expired and routed, with no deletion tried |
| Guarantees.StepWrites | src/demo_controller/store.py:235-262 | every step of loop, clock or crash changes at most one row, by one `update_state` or `delete_record` of the record in hand |
| Guarantees.DeliveriesCommute | src/demo_controller/reconciler.py:71-97 | a delivery between two cluster calls of an operation leads to the same state as one before them |
| Safety.StepKeepsInv | src/demo_controller/reconciler.py:67-130 | every step of the machine keeps the invariant over rows, deliveries, snapshot, cluster and loop position |
| Safety.Always | src/demo_controller/reconciler.py:51-60 | every run from an empty database keeps that invariant |
| Safety.WantedStep | src/demo_controller/store.py:131-149 | appending a delivery changes what a history asks for as the store changes the row: a repeat nothing, a deploy all but creation, a destroy only presence and delivery |
| Convergence.PassConverges | src/demo_controller/reconciler.py:51-109 | one undisturbed pass over a fresh snapshot, from any reachable state, with Vault configured for the wanted demos: unexpired wanted records are ready with exactly their rendering in the cluster, unwanted ones are gone with all four resources, everything else is untouched |
| Convergence.PassBounded | src/demo_controller/reconciler.py:54-55 | an undisturbed pass takes a bounded number of steps, however it goes |
| Convergence.PassNeverStuck | src/demo_controller/reconciler.py:67-109 | until its last record is done an undisturbed pass always has a step to make |
| Convergence.PassCanComplete | src/demo_controller/reconciler.py:51-56 | from every state of an undisturbed pass there is a run that finishes it |
| Convergence.ControllerNamesDistinct | src/demo_controller/naming.py:7-10 | with the controller's own names, the distinctness that convergence needs follows from separate digests and numbers below one million |
| Reconciler.ReconciliationLoop.constructor | src/demo_controller/reconciler.py:15-37 | starts in the machine's initial state |
| Reconciler.ReconciliationLoop.Reconcile | src/demo_controller/reconciler.py:67-130 | performs machine steps only, goes on to the next record, and leaves the row gone, ready, waiting or failed |
| Reconciler.ReconciliationLoop.DeleteDemo | src/demo_controller/reconciler.py:68-82 | the delete branch as machine steps; a row that is left is failed |
| Reconciler.ReconciliationLoop.FinishDelete | src/demo_controller/reconciler.py:71-73 | after a completed deletion the row is gone, whatever arrived meanwhile |
| Reconciler.ReconciliationLoop.ApplyDemo | src/demo_controller/reconciler.py:83-130 | the apply branch from the Vault lookup on, as machine steps; the Vault client keeps its invariant |
| Reconciler.ReconciliationLoop.AskVault | src/demo_controller/reconciler.py:87 | a lookup through the Vault client, which returns a valid configuration or nothing and keeps its invariant |
| Reconciler.ReconciliationLoop.ApplyAnswer | src/demo_controller/reconciler.py:89-130 | Vault failure, namespace refusal or apply, as machine steps |
| Reconciler.ReconciliationLoop.TakeSnapshot | src/demo_controller/reconciler.py:54 | the pass begins with each listed row once |
| Reconciler.ReconciliationLoop.ApplyRendered | src/demo_controller/reconciler.py:93-109 | rendering and apply with every partial failure, as machine steps |
| Reconciler.ReconciliationLoop.FinishApply | src/demo_controller/reconciler.py:101-109 | records version and port; the row is ready if readiness was reported, and reconciling otherwise |
| Reconciler.ReconciliationLoop.Fail | src/demo_controller/reconciler.py:110-130 | a failure marks the row failed and moves on to the next record |
| Reconciler.ReconciliationLoop.Pass | src/demo_controller/reconciler.py:53-56 | handles every row of one snapshot in order; the state after it is reachable in the machine |
| Reconciler.ReconciliationLoop.RunLoop | src/demo_controller/reconciler.py:51-62 | any number of passes with waits in between is one run of the machine; at the end every pool of an owned Vault client has been closed exactly once, and an injected client not at all |
| Kubernetes.ApplyIsExact | src/demo_controller/kubernetes.py:146-153 | a complete apply leaves exactly the rendering under its name, stale ConfigMap and Secret removed, all other resources as they were |
| Kubernetes.DeleteIsExact | src/demo_controller/kubernetes.py:163-166 | a complete delete removes the four kinds under the name and nothing else |
| Kubernetes.RenderedRuns | src/demo_controller/models.py:119-126 | because plain and secret names are disjoint, a cluster holding a rendering gives the pod both sets of variables unchanged, and all else as configured |
| Kubernetes.PutsAreRendered | src/demo_controller/kubernetes.py:57-137 | whatever apply writes carries the record's name, and a Deployment its image |
| Kubernetes.ApplyTargets | src/demo_controller/kubernetes.py:42-47 | an apply makes exactly four calls, one for each kind under the name |
| Kubernetes.DeploymentComesLast | src/demo_controller/kubernetes.py:42-47 | the Deployment is applied after all else that is rendered and before anything is removed |
| Kubernetes.DeploymentGoesFirst | src/demo_controller/kubernetes.py:163-166 | the Deployment is the first to be deleted |
| Kubernetes.AvailableIff | src/demo_controller/kubernetes.py:154-161 | with the one replica rendered, ready means that the present generation was observed and a replica is available |
| Kubernetes.KubernetesReconciler.Apply | src/demo_controller/kubernetes.py:146-161 | stopped anywhere, the cluster is the old one after a prefix of the planned calls; an answer means all were made, and says whether the Deployment read back is available |
| Kubernetes.KubernetesReconciler.Delete | src/demo_controller/kubernetes.py:163-166 | stopped anywhere, the cluster is the old one after a prefix of the four removals; success iff all were made |
| Kubernetes.KubernetesReconciler.DeleteIfExists | src/demo_controller/kubernetes.py:168-177 | a success leaves the resource absent, a missing one included; a failure may or may not have removed it |
| Store.DemoStore.Use | src/demo_controller/store.py:92-118 | purges old rows, then accepts a new nonce or the same fingerprint |
| Store.DemoStore.Deploy | src/demo_controller/store.py:120-167 | the new table, the conflict case, the returned row and whether it changed |
| Store.DemoStore.Destroy | src/demo_controller/store.py:169-203 | the new table, the conflict case and the returned row |
| Store.DemoStore.Update | src/demo_controller/store.py:235-258 | writes state, message (cut at 1000) and the given version and port of an existing row, nothing else |
| Store.DemoStore.Delete | src/demo_controller/store.py:260-262 | removes the row of the key, unconditionally |
| Store.DemoStore.ListReconcilable | src/demo_controller/store.py:205-210 | each row in a listed state exactly once, in some order |
| Store.DemoStore.GetReadyByHostname | src/demo_controller/store.py:219-233 | returns an eligible row with the hostname iff one exists |
| Store.RouteIsUnique | src/demo_controller/store.py:219-233 | at most one row has a hostname when truncated project slugs separate the stored repositories |
| Store.OwnersShareHosts | src/demo_controller/naming.py:13-16 | two demos of different owners with one project name and number have one hostname |
| Vault.AtMostOnce | src/demo_controller/vault.py:80-105 | a request is one attempt or two; a second only after a pre-send failure of an owned client, so at most one can have reached Vault |
| Vault.EnsureTokenKeepsInv | src/demo_controller/vault.py:126-159 | `_ensure_token` returns iff the token was still good or Vault's last answer grants one; the token in force is always the last granted |
| Vault.EnsureTokenLeg | src/demo_controller/vault.py:126-159 | a transport failure of a renewal or login ends `_ensure_token` with an authentication error; no login follows a failed transmission of a renewal |
| VaultTokens.TokenKeptIff | src/demo_controller/vault.py:126-129 | a token is used without a request iff more than thirty seconds of its lease are left |
| VaultTokens.FirstRequest | src/demo_controller/vault.py:130-149 | otherwise the first request is a renewal iff there is a renewable token, and a login else; without credentials there is none |
| VaultTokens.GrantRemembered | src/demo_controller/vault.py:161-171 | after a grant, token, renewability, and the clock at the grant plus the lease are remembered as the last answer says |
| VaultTokens.GrantIff | src/demo_controller/vault.py:137-142 | a grant is an answer in the two hundreds with a token and a lease |
| VaultTokens.LooksAgainIff | src/demo_controller/vault.py:179-184 | a lookup goes on after its first request iff Vault answered 401 or 403 and there are credentials |
| Vault.ProjectKeepsInv | src/demo_controller/vault.py:173-211 | a returned project was fetched with the token in force, the last one Vault granted |
| Vault.ProjectConcludes | src/demo_controller/vault.py:173-211 | `project` returns a configuration iff its last transmission was a lookup of that repository answered with a valid one; not configured iff a lookup answered 404; any other answer or exception of the last lookup, and a denied login, is reported with its status or name |
| Vault.ProjectBounds | src/demo_controller/vault.py:173-211 | on every network at most one renewal, two logins, two lookups and ten transmissions, and after a transport failure nothing but its own retry |
| Vault.TenTransmissions | src/demo_controller/vault.py:80-105 | that bound is attained |
| Vault.EveryRun | src/demo_controller/vault.py:71-110 | over any run of lookups: pools made equal one plus the transport failures, every retry follows a pre-send failure on a new pool, every token sent is the last granted, and after `aclose` each pool has been closed exactly once; an injected client is left alone |
| VaultSession.VaultClient.constructor | src/demo_controller/vault.py:37-64 | a fresh client without a token meets the invariant |
| VaultSession.VaultClient.Request | src/demo_controller/vault.py:80-105 | the retry loop leaves the pools and history that the specification says; its trailing assertion error is unreachable |
| VaultSession.VaultClient.ResetClient | src/demo_controller/vault.py:71-78 | a new pool takes the place of the old one, which is closed |
| VaultSession.VaultClient.SetToken | src/demo_controller/vault.py:161-171 | stores token, expiry and renewability, or leaves all as they were |
| VaultSession.VaultClient.EnsureToken | src/demo_controller/vault.py:126-159 | cached token, renewal or login, as specified |
| VaultSession.VaultClient.LogIn | src/demo_controller/vault.py:145-159 | login, or missing credentials without a request |
| VaultSession.VaultClient.Project | src/demo_controller/vault.py:173-211 | the lookup with its one re-authentication, as specified |
| VaultSession.VaultClient.Close | src/demo_controller/vault.py:107-110 | closes an owned pool only |
| VaultTasks.EveryInterleaving | src/demo_controller/vault.py:71-110 | in every interleaving of lookups and closes: one request under way at most, on the present pool, none being closed meanwhile; pool conservation; at most twelve transmissions per lookup |
| VaultTasks.EveryHeader | src/demo_controller/vault.py:120-159 | in every interleaving a login carries no token, and each renewal and lookup the token granted last when its header was built |
| VaultTasks.BuiltInForce | src/demo_controller/vault.py:173-195 | in every interleaving the token a lookup carries is in force when the lookup is built |
| VaultTasks.NoDeadlock | src/demo_controller/vault.py:126-127 | while any task is unfinished, some task can move |
| VaultTasks.RunsEnd | src/demo_controller/vault.py:80-105 | every interleaving ends, after at most 38 steps per call |
| Auth.DequeIsWindow | src/demo_controller/auth.py:79-85 | in one life of the process on a nondecreasing clock, after each check the deque holds exactly the admissions of the last sixty seconds, and a check admits iff those in the whole history are fewer than the limit |
| Auth.CheckTracks | src/demo_controller/auth.py:79-85 | a check does to the deque what it does to the history of admissions, of which the deque is the end |
| Auth.RateNeverExceeded | src/demo_controller/auth.py:79-85 | in one life of the process on a nondecreasing clock no window of sixty seconds, wherever it lies, holds more admissions than the limit |
| Auth.RateHoldsIff | src/demo_controller/auth.py:25-85 | for a sequence of clock readings and restarts, with any number of checks at each reading: every window keeps every limit iff no reading is less than a minute from an earlier one after a restart or a reading a minute or more beyond that |
| Auth.StepBackBreaksRate | src/demo_controller/auth.py:79-85 | without a restart, on any such readings, a load under which a limit of two admits three in one window |
| Auth.RestartBreaksRate | src/demo_controller/auth.py:25 | a load under which a limit of one admits two checks around a restart |
| RateRuns.RunWithinLimit | src/demo_controller/auth.py:58-85 | in every run of the handlers each deque is the end of its repository's history of admissions, and the requests authenticated in any window are within the limit unless the process restarted between two checks of the repository less than a minute apart |
| RateRuns.RestartDoublesRate | src/demo_controller/auth.py:25 | a run with a restart in which a limit of one authenticates two requests within a second |
| NonceLife.RetentionIsTight | src/demo_controller/auth.py:69-75 | over all runs of the handlers, every nonce row is found unchanged for as long as the signature that recorded it is fresh, iff retention is at least twice the signature age |
| NonceLife.RecordedOutlives | src/demo_controller/store.py:100-118 | with the program's retention, whatever happens after a request recorded its row, each use up to its last fresh moment finds that row |
| NonceLife.ShortRetentionReaccepts | src/demo_controller/auth.py:69-75 | with a shorter retention, a run in which the same request is accepted as new twice |
| NonceLife.RowFoundIff | src/demo_controller/store.py:101-107 | in every run, the nonce row of an accepted request is found at each later use while its signature is fresh iff timestamp plus signature age is at most the recording time of the row plus retention, or the answer came after that already |
| Replay.AcceptedAgainIff | src/demo_controller/store.py:101-118 | in every run, a request accepted once is accepted again at each fresh moment the rate allows iff no other message holds its nonce, and none does while its row is the one it was accepted under or is gone |
| Replay.ReplayedDeployIff | src/demo_controller/api.py:146-167 | in every run, an accepted deploy request presented again changes the store iff no other message holds its nonce and the demo's row is gone or carries another delivery ID |
| Replay.ReplayedDestroyIff | src/demo_controller/api.py:169-188 | the same for a destroy request |
| Replay.DestroyedDemoReturns | src/demo_controller/store.py:131-160 | a deploy presented again after a destroy is accepted, with its nonce row in place, and the demo is wanted again with a new lifetime |
| Replay.ReturnsWithinSeconds | src/demo_controller/auth.py:41-43 | with a signature age of 300 seconds the identical request does this at 0, 10 and 20 seconds |
| NonceLife.RowAcceptsOnlyRepeats | src/demo_controller/store.py:101-118 | in every run, all requests accepted since a nonce row was recorded share method, path and body, and while it is kept a further request is accepted iff it shares them |
| Auth.JoinInjective | src/demo_controller/auth.py:59-67 | the joined fields determine all five fields when the first four hold no newline |
| Signing.SignedText | src/demo_controller/auth.py:45-53 | cut at its first four newlines the signed text reads as upper-case verb, path, timestamp, nonce and body, and it is the only text that does |
| Signing.UpperLaw | src/demo_controller/auth.py:47 | each small letter of a verb becomes its partner and nothing else changes |
| Signing.PrecheckIff | src/demo_controller/auth.py:28-57 | a request gets past the signature check iff its credential exists, its timestamp is fresh and it carries the code of that text; otherwise the first failing guard answers |
| Signing.AuthenticateIff | src/demo_controller/auth.py:58-77 | who is authenticated, rate-limited or refused as replayed, and that only this repository's deque and the nonce table change, the table only behind the other guards |
| Auth.Authenticator.CheckRateLimit | src/demo_controller/auth.py:79-85 | the loop over the deque does what the functional check says, for this repository only |
| Auth.Authenticator.AuthenticateRequest | src/demo_controller/auth.py:27-77 | guards in their order, with the new deques and nonce table |
| Api.Handlers.Deploy | src/demo_controller/api.py:146-167 | the handler's guards in order, then the store step |
| Api.Handlers.Destroy | src/demo_controller/api.py:169-188 | the handler's guards in order, then the store step |
| Api.AdmittedDeployIsAuthorised | src/demo_controller/api.py:150-162 | a deploy that reaches the store names its credential's repository, its nonce as delivery ID, and an immutable digest of that repository in the registry |
| Requests.DeployModelIff | src/demo_controller/models.py:18-50 | a body is a deploy request iff it has exactly the five fields and each passes its validator; the request has its number, image and delivery ID, and repository and commit in small letters |
| Requests.DestroyModelIff | src/demo_controller/models.py:53-64 | the same for destroys and their three fields |
| Requests.DeployGuardIff | src/demo_controller/api.py:150-162 | which answer each guard of the deploy handler gives, and that a request passing all of them is admitted |
| Requests.DestroyGuardIff | src/demo_controller/api.py:173-181 | the same for destroys |
| Requests.DeployDoes | src/demo_controller/api.py:163-167 | an admitted deploy is refused iff its delivery ID belongs to another body; otherwise it touches the row of the repository and number in its body and no other, which takes commit, image, delivery and expiry from it unless it is a repeat |
| Requests.DestroyDoes | src/demo_controller/api.py:182-188 | the same for destroys |
| Requests.OthersLeaveStore | src/demo_controller/api.py:146-188 | a request that fails a guard is answered by it and leaves the store as it was |
| Proxy.ProxyLookup.Lookup | src/demo_controller/api.py:209-218 | returns service and port of an eligible row with the requested host, and nothing only if there is none |
| Proxy.HostVariants | src/demo_controller/api.py:209 | a host is found in capital letters, with trailing dots and with a port as well |
| Api.AcceptedDecidesPresence | src/demo_controller/api.py:146-188 | in every run the record returned by an accepted deploy is wanted, and by an accepted destroy unwanted |
| Interface.DeployIsStep | src/demo_controller/api.py:146-167 | while the loop awaits, an accepted deploy does to the store what an enabled deploy step of the machine does; any other answer leaves it unchanged |
| Interface.DestroyIsStep | src/demo_controller/api.py:169-188 | the same for destroys |
| Interface.MachineOf | src/demo_controller/api.py:146-188 | for handlers whose parsers implement the models and whose hash is injective there is a machine that these steps belong to |
| Api.YoungNonceAcceptsOnlyRepeats | src/demo_controller/auth.py:59-76 | in every run, a nonce all of whose uses are within the retention still has its row, and a further use is accepted iff it has the method, path and body of every earlier one |
| Api.ReuseErrorNeedsOldNonce | src/demo_controller/store.py:131-134 | in every run the store reports a reused delivery ID only if that nonce was used longer ago than its retention |
| Models.AcceptedImageIff | src/demo_controller/models.py:45-50 | validator and handler accept an image iff, in lower case, it is registry, repository and a 64-digit digest, with a registry of the grammar |
| Models.ImageGroupsUnique | src/demo_controller/models.py:10-14 | the image expression matches with at most one choice of groups |
| Models.DisjointModels | src/demo_controller/models.py:18-56 | no JSON object is both a deploy and a destroy request |
| Models.RepositoryParts | src/demo_controller/models.py:8 | a valid repository splits into an owner of at most 39 and a name of at most 100 word characters, each starting with a letter or digit |
| Models.RepositoryIff | src/demo_controller/models.py:8 | a repository is valid iff it is an owner of at most 39 and a name of at most 100 characters around a slash, each starting with a letter or figure |
| Models.RegistryIff | src/demo_controller/models.py:11 | a registry is a host and perhaps a port of at most five figures |
| Models.ConfigIff | src/demo_controller/models.py:92-126 | a configuration is valid iff it is enabled, its port is in range, its names match their expression and are disjoint, its values and path are within their limits |
| Models.NamespaceCheckIff | src/demo_controller/reconciler.py:89-92 | for an authorised image the namespace check passes iff the namespace is the repository |
| Naming.CutDropsOnlyDigits | src/demo_controller/naming.py:7-10 | the cut at 63 drops only trailing digits of the number, and the final strip changes nothing |
| Naming.NameIsLabel | src/demo_controller/naming.py:7-10 | every resource name is a label in the sense of section 2.3.1 of RFC 1035 |
| Naming.NameRoundTrip | src/demo_controller/naming.py:7-10 | parsing a name gives back slug, digest and the kept digits |
| Slugs.CollapseKeeps | src/demo_controller/naming.py:8 | a string over the class is left as it is by the substitution |
| Slugs.CollapseRun | src/demo_controller/naming.py:8 | a maximal run of other characters becomes exactly one hyphen, wherever it stands |
| Slugs.SlugCharLaw | src/demo_controller/naming.py:8 | the class is small letters, figures and the hyphen |
| Slugs.StripLaw | src/demo_controller/naming.py:8 | stripping removes exactly the hyphens at both ends |
| Slugs.TakeLaw | src/demo_controller/naming.py:8-15 | a cut keeps the front, as long as the limit allows |
| Slugs.LowerLaw | src/demo_controller/naming.py:8 | each capital letter becomes its partner and nothing else changes |
| Slugs.DecimalLaw | src/demo_controller/naming.py:10 | numbers are written in figures, the most significant first |
| Slugs.ResourceSlugOfWords | src/demo_controller/naming.py:7-10 | the resource slug is the repository's words in small letters, joined by single hyphens and cut at 39 |
| Slugs.HostSlugOfWords | src/demo_controller/naming.py:13-16 | the host slug is the project's words in small letters, joined by single hyphens and cut at forty |
| Slugs.NameReads | src/demo_controller/naming.py:7-10 | a name that needs no cut reads demo, slug, digest, pr, number |
| Slugs.DottedProject | src/demo_controller/naming.py:13-16 | the names of one repository, written out |
| Naming.NumberRecovered | src/demo_controller/naming.py:7-10 | the number is recovered iff 18 + slug + digits fit in 63 |
| Naming.NamesEqualIff | src/demo_controller/naming.py:7-10 | exactly when two names coincide |
| Naming.DistinctNames | src/demo_controller/naming.py:7-10 | below one million, separate digests give distinct demos distinct names |
| Naming.LongNumbersCollide | src/demo_controller/naming.py:7-10 | numbers of one repository that share a name |
| Naming.HostRoundTrip | src/demo_controller/naming.py:13-16 | the first label split at its last mark gives back truncated slug and number |
| Naming.HostsEqualIff | src/demo_controller/naming.py:13-16 | two hostnames under one suffix are equal iff slugs and numbers are |

## Left out

- HTTP proxying of bodies, headers and cookies, the application wiring, settings and health pages: plumbing around the lookup and the two handlers. The JSON of an answer is the row.
- The status endpoint and `Store.get`: plain reads.
- The charm under `charm/`: little state.
- SQLite: a store method is one atomic step, and database errors do not occur. The ALTER TABLE upgrade of old databases is not modelled.
- SHA-256 and HMAC are function parameters; injectivity is assumed where a lemma says so. `compare_digest` is equality, and its TypeError for non-ASCII signatures is not modelled.
- JSON syntax: reading a body as an object, and what a string or integer field makes of a value, are parameters. A timestamp is an integer or absent, a Vault response body a typed value.
- Lower and upper case are ASCII; Python's also map other letters.
- Resource contents: probe timings, security contexts, resource limits and their validators, base64 and all labels but the owner are constant or copied and not modelled. A value that Kubernetes rejects is a failed call.
- Delayed effects: a failed cluster call takes effect before it is reported, or never. A call still under way on the server after a crash is not modelled.
- The wall clock does not run backwards in the machine of `ControlPlane`; the monotonic clock of the Vault client is arbitrary.
- `_observe`, logging and the exact failure messages: messages are abbreviated, without Vault category or exception text; every exception of a lookup is recorded with one message.
- The class `ReconciliationLoop` lets deliveries arrive before and after the calls of a cluster operation; the machine lets them arrive between the calls as well, which by `DeliveriesCommute` leads to no other states.
- Reading the request body inside `authenticate` is part of one atomic step.
- Cancellation of a task, and an exception of `aclose` outside the caught ones, are not modelled.
- The stop event: `RunLoop` makes an arbitrary number of passes, and a wait is not cut short.
- `VaultTasks` leaves clock, expiry and renewability open: a caller may use, renew or replace a token whenever there is one. Another caller's token can be renewed after a refusal; hence twelve transmissions per lookup there, against ten for a lookup alone.
