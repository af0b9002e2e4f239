/** The Vault client under concurrent callers: lookups and `aclose` calls interleave at every await,
    ordered only by `_lock` and `_request_lock` (src/demo_controller/vault.py). Clock and expiry are
    left open: a caller with a token may use it, renew it or log in. */
module VaultTasks {
  import opened Text
  import Vault

  /** Where a task is inside `_request`: waiting for the request lock, awaiting `client.request`,
      awaiting `previous.aclose()`, or asleep before its second attempt. */
  datatype Place =
    | Waiting
    | InFlight(attempt: nat, pool: nat)
    | Closing(previous: nat, retry: bool)
    | Sleeping

  /** A lookup waits for `_lock`, authenticates holding it, then fetches; `second` marks what follows
      a refused token. `Authenticating` holds `_lock`. The header is built before the request waits for
      its lock, when `built` tokens had been granted. */
  datatype Task =
    | NeedsToken(second: bool)
    | Authenticating(second: bool, renewal: bool, header: Option<string>, built: nat, place: Place)
    | Fetching(second: bool, header: Option<string>, built: nat, place: Place)
    | NeedsClose
    | ClosingPool(pool: nat)
    | Done

  /** `pool` is the present pool, `created` counts those the factory made, `replaced` lists the
      pools closed on replacement, `failures` counts transport failures, `sent` transmissions by task;
      `grants` lists the tokens that Vault granted, `wire` all transmissions. */
  datatype Sys = Sys(
    owned: bool, tasks: seq<Task>, lock: Option<nat>, requestLock: Option<nat>,
    pool: nat, created: nat, replaced: seq<nat>, failures: nat, sent: seq<nat>,
    token: Option<string>, grants: seq<string>, wire: seq<Transmission>)

  datatype Transmission = Transmission(login: bool, header: Option<string>, built: nat)

  datatype Decision = UseToken | GiveUp | Send(renewal: bool)

  /** What the answer to a request leads to: a token, a refused token, a login after a renewal that was
      denied, or the end of the call. */
  datatype Next = Granted(token: string) | Refused | LogIn | Stop

  datatype Step =
    | TakeLock(decision: Decision)
    | TakeRequestLock
    | Answered(next: Next)
    | TransportFails(preSend: bool)
    | PoolClosed
    | Wakes

  // ---------------------------------------------------------------- steps

  predicate InRequest(task: Task) {
    task.Authenticating? || task.Fetching?
  }

  /** The caller uses the present pool, or closes one. */
  predicate HoldsRequestLock(task: Task) {
    task.ClosingPool? || (InRequest(task) && !task.place.Waiting?)
  }

  predicate Enabled(s: Sys, i: nat, step: Step) {
    i < |s.tasks| && |s.sent| == |s.tasks| &&
    var task := s.tasks[i];
    match step
    case TakeLock(decision) =>
      && task.NeedsToken? && s.lock == None
      && (decision.UseToken? || (decision.Send? && decision.renewal) ==> Vault.Truthy(s.token))
    case TakeRequestLock =>
      (s.requestLock == None && (task.NeedsClose? || (InRequest(task) && task.place.Waiting?)))
      || (task.NeedsClose? && !s.owned)
    case Answered(next) =>
      && InRequest(task) && task.place.InFlight?
      && (next.Granted? ==> task.Authenticating?)
      && (next.LogIn? ==> task.Authenticating? && task.renewal)
      && (next.Refused? ==> task.Fetching? && !task.second)
    case TransportFails(_) => InRequest(task) && task.place.InFlight?
    case PoolClosed => task.ClosingPool? || (InRequest(task) && task.place.Closing?)
    case Wakes => InRequest(task) && task.place.Sleeping?
  }

  function Put(s: Sys, i: nat, task: Task): Sys
    requires i < |s.tasks|
  {
    s.(tasks := s.tasks[i := task])
  }

  function Transmit(s: Sys, i: nat, attempt: nat): Sys
    requires i < |s.tasks| == |s.sent| && InRequest(s.tasks[i])
  {
    var task := s.tasks[i];
    Put(s, i, task.(place := InFlight(attempt, s.pool)))
    .(sent := s.sent[i := s.sent[i] + 1],
      wire := s.wire + [Transmission(task.Authenticating? && !task.renewal, task.header, task.built)])
  }

  /** A lookup or renewal with the present token, or a login without. */
  function Fetch(s: Sys, second: bool): Task {
    Fetching(second, Vault.Header(s.token), |s.grants|, Waiting)
  }

  function Authenticate(s: Sys, second: bool, renewal: bool): Task {
    Authenticating(second, renewal, if renewal then Vault.Header(s.token) else None, |s.grants|, Waiting)
  }

  /** The caller leaves `_request`, and `_ensure_token` unless it goes on to log in. */
  function Leave(s: Sys, i: nat, next: Next): Sys
    requires i < |s.tasks| && InRequest(s.tasks[i])
  {
    var task := s.tasks[i];
    var s' :=
      match next
      case Granted(token) => s.(token := Some(token), grants := s.grants + [token])
      case Stop => s
      case _ => s.(token := None);
    var after :=
      match next
      case Granted(_) => Fetch(s', task.second)
      case Refused => NeedsToken(true)
      case LogIn => Authenticate(s', task.second, false)
      case Stop => Done;
    Put(s', i, after).(requestLock := None, lock := if task.Authenticating? && !next.LogIn? then None else s.lock)
  }

  function Do(s: Sys, i: nat, step: Step): Sys
    requires Enabled(s, i, step)
  {
    var task := s.tasks[i];
    match step
    case TakeLock(UseToken) => Put(s, i, Fetch(s, task.second))
    case TakeLock(GiveUp) => Put(s, i, Done)
    case TakeLock(Send(renewal)) => Put(s, i, Authenticate(s, task.second, renewal)).(lock := Some(i))
    case TakeRequestLock =>
      if InRequest(task) then Transmit(s, i, 0).(requestLock := Some(i))
      else if s.owned then Put(s, i, ClosingPool(s.pool)).(requestLock := Some(i))
      else Put(s, i, Done)
    case Answered(next) => Leave(s, i, next)
    case TransportFails(preSend) =>
      var failed := s.(failures := s.failures + 1);
      if !s.owned then Leave(failed, i, Stop)
      else
        Put(failed, i, task.(place := Closing(s.pool, preSend && task.place.attempt == 0)))
        .(pool := s.created, created := s.created + 1, replaced := s.replaced + [s.pool])
    case PoolClosed =>
      if task.ClosingPool? then Put(s, i, Done).(requestLock := None)
      else if task.place.retry then Put(s, i, task.(place := Sleeping))
      else Leave(s, i, Stop)
    case Wakes => Transmit(s, i, 1)
  }

  predicate ValidRun(s: Sys, run: seq<(nat, Step)>)
    decreases |run|
  {
    run == [] || (Enabled(s, run[0].0, run[0].1) && ValidRun(Do(s, run[0].0, run[0].1), run[1..]))
  }

  function Run(s: Sys, run: seq<(nat, Step)>): Sys
    requires ValidRun(s, run)
    decreases |run|
  {
    if run == [] then s else Run(Do(s, run[0].0, run[0].1), run[1..])
  }

  /** A fresh client and any number of calls of `project` and `aclose`. */
  predicate Initial(s: Sys) {
    && (forall i | 0 <= i < |s.tasks| :: s.tasks[i] == NeedsToken(false) || s.tasks[i] == NeedsClose)
    && s.lock == None && s.requestLock == None
    && s.pool == 0 && s.created == (if s.owned then 1 else 0) && s.replaced == [] && s.failures == 0
    && s.sent == seq(|s.tasks|, _ => 0) && s.token == None && s.grants == [] && s.wire == []
  }

  // ---------------------------------------------------------------- safety

  /** A task's own part: it holds the locks that its place needs and works on the present pool. */
  predicate TaskOk(s: Sys, i: nat)
    requires i < |s.tasks|
  {
    var task := s.tasks[i];
    && (s.lock == Some(i) <==> task.Authenticating?)
    && (s.requestLock == Some(i) <==> HoldsRequestLock(task))
    && (task.ClosingPool? ==> s.owned && task.pool == s.pool)
    && (InRequest(task) ==>
          match task.place
          case Waiting => true
          case InFlight(attempt, pool) => pool == s.pool && attempt <= (if s.owned then 1 else 0)
          case Closing(previous, _) => s.owned && previous == s.pool - 1
          case Sleeping => s.owned)
  }

  /** The pools: one plus one for each failure, all earlier ones closed in turn; or never touched. */
  predicate PoolsOk(s: Sys) {
    if s.owned then
      && s.created == 1 + s.failures && s.pool == s.created - 1 == |s.replaced|
      && forall k | 0 <= k < |s.replaced| :: s.replaced[k] == k
    else
      s.pool == s.created == 0 && s.replaced == []
  }

  /** How many transmissions a task may still make. */
  function Ahead(task: Task): nat {
    match task
    case NeedsToken(second) => 4 + AfterToken(second)
    case Authenticating(second, renewal, _, _, place) => AheadInRequest(place) + (if renewal then 2 else 0) + AfterToken(second)
    case Fetching(second, _, _, place) => AheadInRequest(place) + if second then 0 else 6
    case _ => 0
  }

  function AfterToken(second: bool): nat {
    if second then 2 else 8
  }

  function AheadInRequest(place: Place): nat {
    match place
    case Waiting => 2
    case InFlight(attempt, _) => if attempt == 0 then 1 else 0
    case Closing(_, retry) => if retry then 1 else 0
    case Sleeping => 1
  }

  predicate Inv(s: Sys) {
    && (s.lock.Some? ==> s.lock.value < |s.tasks|) && (s.requestLock.Some? ==> s.requestLock.value < |s.tasks|)
    && (forall i | 0 <= i < |s.tasks| :: TaskOk(s, i))
    && PoolsOk(s)
    && |s.sent| == |s.tasks| && (forall i | 0 <= i < |s.tasks| :: s.sent[i] + Ahead(s.tasks[i]) <= 12)
  }

  lemma StepKeepsPools(s: Sys, i: nat, step: Step)
    requires PoolsOk(s) && Enabled(s, i, step)
    ensures PoolsOk(Do(s, i, step))
  {
  }

  lemma StepKeepsSent(s: Sys, i: nat, step: Step)
    requires Enabled(s, i, step) && forall j | 0 <= j < |s.tasks| :: s.sent[j] + Ahead(s.tasks[j]) <= 12
    ensures var s' := Do(s, i, step);
            |s'.sent| == |s'.tasks| == |s.tasks| && forall j | 0 <= j < |s'.tasks| :: s'.sent[j] + Ahead(s'.tasks[j]) <= 12
  {
  }

  lemma StepKeepsTask(s: Sys, i: nat, step: Step)
    requires Enabled(s, i, step) && TaskOk(s, i) && PoolsOk(s)
    ensures TaskOk(Do(s, i, step), i)
  {
  }

  lemma StepKeepsOther(s: Sys, i: nat, step: Step, j: nat)
    requires Enabled(s, i, step) && TaskOk(s, i) && j < |s.tasks| && j != i && TaskOk(s, j)
    ensures TaskOk(Do(s, i, step), j)
  {
  }

  lemma StepKeepsInv(s: Sys, i: nat, step: Step)
    requires Inv(s) && Enabled(s, i, step)
    ensures Inv(Do(s, i, step))
  {
    StepKeepsPools(s, i, step);
    StepKeepsSent(s, i, step);
    var s' := Do(s, i, step);
    forall j | 0 <= j < |s'.tasks| ensures TaskOk(s', j) {
      if j == i { StepKeepsTask(s, i, step); } else { StepKeepsOther(s, i, step, j); }
    }
  }

  lemma {:induction false} RunKeepsInv(s: Sys, run: seq<(nat, Step)>)
    requires Inv(s) && ValidRun(s, run)
    ensures Inv(Run(s, run)) && Run(s, run).owned == s.owned
    decreases |run|
  {
    if run != [] {
      StepKeepsInv(s, run[0].0, run[0].1);
      RunKeepsInv(Do(s, run[0].0, run[0].1), run[1..]);
    }
  }

  /** In every interleaving: at most one request is under way, on the present pool, and no pool is
      being closed meanwhile; pools made equal one plus the transport failures, and every replaced one
      is closed, once; an injected client is neither replaced nor closed. */
  lemma EveryInterleaving(s: Sys, run: seq<(nat, Step)>)
    requires Initial(s) && ValidRun(s, run)
    ensures var s' := Run(s, run);
            && |s'.sent| == |s'.tasks| && PoolsOk(s')
            && (forall i, j | 0 <= i < j < |s'.tasks| :: !HoldsRequestLock(s'.tasks[i]) || !HoldsRequestLock(s'.tasks[j]))
            && (forall i, j | 0 <= i < j < |s'.tasks| :: !s'.tasks[i].Authenticating? || !s'.tasks[j].Authenticating?)
            && (forall i | 0 <= i < |s'.tasks| && InRequest(s'.tasks[i]) && s'.tasks[i].place.InFlight? ::
                  s'.tasks[i].place.pool == s'.pool && s'.pool !in s'.replaced)
            && (!s'.owned ==> forall i | 0 <= i < |s'.tasks| :: !s'.tasks[i].ClosingPool?)
            && (forall i | 0 <= i < |s'.tasks| :: s'.sent[i] <= 12)
  {
    assert Inv(s);
    RunKeepsInv(s, run);
    var s' := Run(s, run);
    assert forall i | 0 <= i < |s'.tasks| :: TaskOk(s', i) && s'.sent[i] + Ahead(s'.tasks[i]) <= 12;
  }

  // ---------------------------------------------------------------- tokens

  /** The header is that of the last token granted before it was built. */
  predicate HeaderOf(grants: seq<string>, header: Option<string>, built: nat) {
    0 < built <= |grants| && header == if grants[built - 1] == "" then None else Some(grants[built - 1])
  }

  predicate TaskHeaderOk(s: Sys, task: Task) {
    match task
    case Authenticating(_, renewal, header, built, _) => if renewal then HeaderOf(s.grants, header, built) else header == None
    case Fetching(_, header, built, _) => HeaderOf(s.grants, header, built)
    case _ => true
  }

  predicate WireOk(s: Sys, sent: Transmission) {
    if sent.login then sent.header == None else HeaderOf(s.grants, sent.header, sent.built)
  }

  /** The token in force is the one granted last. */
  predicate InForce(s: Sys) {
    s.token.Some? ==> s.grants != [] && s.token.value == s.grants[|s.grants| - 1]
  }

  predicate TokensOk(s: Sys) {
    && InForce(s)
    && (forall i | 0 <= i < |s.tasks| :: TaskHeaderOk(s, s.tasks[i]))
    && (forall i | 0 <= i < |s.wire| :: WireOk(s, s.wire[i]))
  }

  lemma StepGrants(s: Sys, i: nat, step: Step)
    requires Enabled(s, i, step) && InForce(s)
    ensures s.grants <= Do(s, i, step).grants && InForce(Do(s, i, step))
  {
  }

  /** A header, once built, is right for good. */
  lemma HeaderLater(s: Sys, s': Sys, task: Task)
    requires s.grants <= s'.grants && TaskHeaderOk(s, task)
    ensures TaskHeaderOk(s', task)
  {
  }

  lemma BuiltOk(s: Sys, second: bool, renewal: bool)
    requires InForce(s) && s.token.Some?
    ensures TaskHeaderOk(s, Fetch(s, second)) && TaskHeaderOk(s, Authenticate(s, second, renewal))
  {
  }

  lemma LeaveKeepsHeader(s: Sys, i: nat, next: Next)
    requires i < |s.tasks| && InRequest(s.tasks[i]) && InForce(s)
    ensures TaskHeaderOk(Leave(s, i, next), Leave(s, i, next).tasks[i])
  {
    if next.Granted? { BuiltOk(s.(token := Some(next.token), grants := s.grants + [next.token]), s.tasks[i].second, false); }
  }

  /** These steps leave the caller's header as it is, or end the call. */
  lemma PlaceKeepsHeader(s: Sys, i: nat, step: Step)
    requires Enabled(s, i, step) && TaskHeaderOk(s, s.tasks[i]) && !step.TakeLock? && !step.Answered?
    ensures TaskHeaderOk(Do(s, i, step), Do(s, i, step).tasks[i])
  {
    match step
    case TakeRequestLock =>
    case TransportFails(_) =>
    case PoolClosed =>
    case Wakes =>
  }

  lemma StepKeepsHeader(s: Sys, i: nat, step: Step)
    requires Enabled(s, i, step) && InForce(s) && TaskHeaderOk(s, s.tasks[i])
    ensures TaskHeaderOk(Do(s, i, step), Do(s, i, step).tasks[i])
  {
    if step.Answered? {
      LeaveKeepsHeader(s, i, step.next);
    } else if step.TakeLock? {
      if s.token.Some? { BuiltOk(s, s.tasks[i].second, step.decision.Send? && step.decision.renewal); }
    } else {
      PlaceKeepsHeader(s, i, step);
    }
  }

  lemma StepTransmits(s: Sys, i: nat, step: Step)
    requires Enabled(s, i, step) && TaskHeaderOk(s, s.tasks[i])
    ensures var s' := Do(s, i, step);
            s'.wire == s.wire || (|s'.wire| == |s.wire| + 1 && s.wire <= s'.wire && WireOk(s, s'.wire[|s.wire|]) && s'.grants == s.grants)
  {
  }

  lemma OtherKeepsHeader(s: Sys, i: nat, step: Step, j: nat)
    requires Enabled(s, i, step) && InForce(s) && j < |s.tasks| && j != i && TaskHeaderOk(s, s.tasks[j])
    ensures j < |Do(s, i, step).tasks| && TaskHeaderOk(Do(s, i, step), Do(s, i, step).tasks[j])
  {
    StepGrants(s, i, step);
    HeaderLater(s, Do(s, i, step), s.tasks[j]);
  }

  lemma WireLater(s: Sys, s': Sys)
    requires s.grants <= s'.grants && s.wire <= s'.wire && |s'.wire| <= |s.wire| + 1
    requires forall k | 0 <= k < |s.wire| :: WireOk(s, s.wire[k])
    requires |s'.wire| > |s.wire| ==> WireOk(s', s'.wire[|s.wire|])
    ensures forall k | 0 <= k < |s'.wire| :: WireOk(s', s'.wire[k])
  {
    forall k | 0 <= k < |s'.wire| ensures WireOk(s', s'.wire[k]) {
      if k < |s.wire| { assert WireOk(s, s.wire[k]) && s'.wire[k] == s.wire[k]; }
    }
  }

  lemma StepKeepsTokens(s: Sys, i: nat, step: Step)
    requires TokensOk(s) && Enabled(s, i, step)
    ensures TokensOk(Do(s, i, step))
  {
    var s' := Do(s, i, step);
    StepGrants(s, i, step);
    StepTransmits(s, i, step);
    WireLater(s, s');
    forall j | 0 <= j < |s'.tasks| ensures TaskHeaderOk(s', s'.tasks[j]) {
      assert |s'.tasks| == |s.tasks|;
      if j == i { StepKeepsHeader(s, i, step); } else { OtherKeepsHeader(s, i, step, j); }
    }
  }

  lemma {:induction false} RunKeepsTokens(s: Sys, run: seq<(nat, Step)>)
    requires TokensOk(s) && ValidRun(s, run)
    ensures TokensOk(Run(s, run))
    decreases |run|
  {
    if run != [] {
      StepKeepsTokens(s, run[0].0, run[0].1);
      RunKeepsTokens(Do(s, run[0].0, run[0].1), run[1..]);
    }
  }

  /** In every interleaving, a login carries no token, and every renewal and lookup carries the token
      that had been granted last when its header was built. */
  lemma EveryHeader(s: Sys, run: seq<(nat, Step)>, k: nat)
    requires Initial(s) && ValidRun(s, run) && k < |Run(s, run).wire|
    ensures var s' := Run(s, run); WireOk(s', s'.wire[k])
  {
    RunKeepsTokens(s, run);
  }

  lemma StartsInForce(s: Sys, i: nat, step: Step)
    requires Enabled(s, i, step) && InForce(s) && !s.tasks[i].Fetching? && Do(s, i, step).tasks[i].Fetching?
    ensures var s' := Do(s, i, step);
            && s'.token.Some? && s'.tasks[i].header == Vault.Header(s'.token) && s'.tasks[i].built == |s'.grants|
            && s'.grants != [] && s'.token.value == s'.grants[|s'.grants| - 1]
  {
  }

  /** When a lookup is built, the token it carries is in force. */
  lemma BuiltInForce(s: Sys, run: seq<(nat, Step)>, i: nat, step: Step)
    requires Initial(s) && ValidRun(s, run) && Enabled(Run(s, run), i, step)
    requires !Run(s, run).tasks[i].Fetching? && Do(Run(s, run), i, step).tasks[i].Fetching?
    ensures var s' := Do(Run(s, run), i, step);
            && s'.token.Some? && s'.tasks[i].header == Vault.Header(s'.token) && s'.tasks[i].built == |s'.grants|
            && s'.grants != [] && s'.token.value == s'.grants[|s'.grants| - 1]
  {
    assert InForce(Run(s, run)) by { RunKeepsTokens(s, run); }
    StartsInForce(Run(s, run), i, step);
  }

  // ---------------------------------------------------------------- progress

  /** The longest way a task can still have to go, alone. */
  function Rank(task: Task): nat {
    match task
    case Done => 0
    case ClosingPool(_) => 1
    case NeedsClose => 2
    case NeedsToken(second) => if second then 19 else 38
    case Authenticating(second, renewal, _, _, place) =>
      RankInRequest(place) + (if renewal then 12 else 6) + if second then 0 else 19
    case Fetching(second, _, _, place) => RankInRequest(place) + if second then 0 else 19
  }

  function RankInRequest(place: Place): nat {
    match place
    case Waiting => 6
    case InFlight(attempt, _) => if attempt == 0 then 5 else 2
    case Closing(_, retry) => if retry then 4 else 1
    case Sleeping => 3
  }

  function TotalRank(tasks: seq<Task>, n: nat): nat
    requires n <= |tasks|
  {
    if n == 0 then 0 else TotalRank(tasks, n - 1) + Rank(tasks[n - 1])
  }

  lemma {:induction false} RankUpdate(tasks: seq<Task>, i: nat, task: Task, n: nat)
    requires i < |tasks| && n <= |tasks|
    ensures TotalRank(tasks[i := task], n) == TotalRank(tasks, n) + if i < n then Rank(task) - Rank(tasks[i]) else 0
  {
    if n > 0 { RankUpdate(tasks, i, task, n - 1); }
  }

  lemma TaskDescends(s: Sys, i: nat, step: Step)
    requires Enabled(s, i, step)
    ensures var s' := Do(s, i, step); s'.tasks == s.tasks[i := s'.tasks[i]] && Rank(s'.tasks[i]) < Rank(s.tasks[i])
  {
  }

  lemma StepDescends(s: Sys, i: nat, step: Step)
    requires Enabled(s, i, step)
    ensures var s' := Do(s, i, step);
            |s'.tasks| == |s.tasks| && TotalRank(s'.tasks, |s'.tasks|) < TotalRank(s.tasks, |s.tasks|)
  {
    TaskDescends(s, i, step);
    RankUpdate(s.tasks, i, Do(s, i, step).tasks[i], |s.tasks|);
  }

  lemma {:induction false} RunDescends(s: Sys, run: seq<(nat, Step)>)
    requires ValidRun(s, run)
    ensures |run| <= TotalRank(s.tasks, |s.tasks|)
    decreases |run|
  {
    if run != [] {
      StepDescends(s, run[0].0, run[0].1);
      RunDescends(Do(s, run[0].0, run[0].1), run[1..]);
    }
  }

  lemma {:induction false} InitialRank(tasks: seq<Task>, n: nat)
    requires n <= |tasks| && forall i | 0 <= i < n :: tasks[i] == NeedsToken(false) || tasks[i] == NeedsClose
    ensures TotalRank(tasks, n) <= 38 * n
  {
    if n > 0 { InitialRank(tasks, n - 1); }
  }

  /** Every interleaving ends: a lookup takes at most 38 steps. */
  lemma RunsEnd(s: Sys, run: seq<(nat, Step)>)
    requires Initial(s) && ValidRun(s, run)
    ensures |run| <= 38 * |s.tasks|
  {
    RunDescends(s, run);
    InitialRank(s.tasks, |s.tasks|);
  }

  /** What a task does next if it waits for nobody. */
  function Move(task: Task): Step {
    match task
    case NeedsToken(_) => TakeLock(GiveUp)
    case NeedsClose => TakeRequestLock
    case ClosingPool(_) => PoolClosed
    case Done => Wakes
    case Authenticating(_, _, _, _, place) => MoveInRequest(place)
    case Fetching(_, _, _, place) => MoveInRequest(place)
  }

  function MoveInRequest(place: Place): Step {
    match place
    case Waiting => TakeRequestLock
    case InFlight(_, _) => Answered(Stop)
    case Closing(_, _) => PoolClosed
    case Sleeping => Wakes
  }

  /** The order `_lock` before `_request_lock` admits no deadlock: the holder of the request lock can
      move, or else the holder of the token lock can, or else anybody can. */
  lemma NoDeadlock(s: Sys, k: nat) returns (i: nat)
    requires Inv(s) && k < |s.tasks| && s.tasks[k] != Done
    ensures i < |s.tasks| && Enabled(s, i, Move(s.tasks[i]))
  {
    i := if s.requestLock.Some? then s.requestLock.value else if s.lock.Some? then s.lock.value else k;
    assert TaskOk(s, i) && TaskOk(s, k);
  }
}
