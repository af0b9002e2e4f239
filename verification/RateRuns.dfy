/** The rate limit over runs of the handlers, restarts of the process included. */
module RateRuns {
  import opened Text
  import opened Store
  import opened Auth
  import opened Api
  import opened NonceLife

  /** What happens to the limiter of one repository. */
  function MarksOf(checks: seq<RateMark>, n: nat, repository: string): seq<Mark>
    requires n <= |checks|
  {
    if n == 0 then []
    else
      var marks := MarksOf(checks, n - 1, repository);
      match checks[n - 1]
      case Restarted => marks + [Mark.Restart]
      case Checked(other, at) => if other == repository then marks + [Check(at)] else marks
  }

  function Marks(s: State, repository: string): seq<Mark> {
    MarksOf(s.checks, |s.checks|, repository)
  }

  /** The admissions of a repository, by its history of checks. */
  function AdmissionsOf(c: ApiConfig, s: State, repository: string): (a: Admissions)
    ensures a.start <= |a.times|
  {
    History(Marks(s, repository), |Marks(s, repository)|, c.auth.rateLimit)
  }

  /** The authenticated requests of a repository, among the first `n`, in (after, upTo]. */
  function EntriesIn(entries: seq<Entry>, n: nat, repository: string, after: int, upTo: int): nat
    requires n <= |entries|
  {
    if n == 0 then 0
    else
      EntriesIn(entries, n - 1, repository, after, upTo)
      + if Lower(entries[n - 1].request.repository) == repository && Inside(entries[n - 1].at, after, upTo) then 1 else 0
  }

  function Accepted(s: State, repository: string, t: int): nat {
    EntriesIn(s.entries, |s.entries|, repository, t - 60, t)
  }

  /** The deque is the end of the admissions, and whoever was authenticated had been admitted. */
  predicate RateOk(c: ApiConfig, s: State, repository: string, t: int) {
    var a := AdmissionsOf(c, s, repository);
    Tracks(Auth.Times(s.auth, repository), a) && Accepted(s, repository, t) <= CountIn(a.times, |a.times|, t - 60, t)
  }

  lemma {:induction false} MarksStable(a: seq<RateMark>, b: seq<RateMark>, n: nat, repository: string)
    requires n <= |a| && a <= b
    ensures MarksOf(a, n, repository) == MarksOf(b, n, repository)
  {
    if n > 0 { MarksStable(a, b, n - 1, repository); }
  }

  lemma {:induction false} EntriesStable(a: seq<Entry>, b: seq<Entry>, n: nat, repository: string, after: int, upTo: int)
    requires n <= |a| && a <= b
    ensures EntriesIn(a, n, repository, after, upTo) == EntriesIn(b, n, repository, after, upTo)
  {
    if n > 0 { EntriesStable(a, b, n - 1, repository, after, upTo); }
  }

  lemma HistoryOneMore(marks: seq<Mark>, mark: Mark, limit: int)
    ensures History(marks + [mark], |marks| + 1, limit) == After(History(marks, |marks|, limit), mark, limit)
  {
    HistoryStable(marks, marks + [mark], |marks|, limit);
  }

  /** What one more mark does to the history of a repository. */
  lemma OneMark(c: ApiConfig, s: State, s': State, mark: RateMark, repository: string)
    requires s'.checks == s.checks + [mark]
    ensures AdmissionsOf(c, s', repository) ==
              match mark
              case Restarted => After(AdmissionsOf(c, s, repository), Mark.Restart, c.auth.rateLimit)
              case Checked(other, at) =>
                if other == repository then After(AdmissionsOf(c, s, repository), Check(at), c.auth.rateLimit)
                else AdmissionsOf(c, s, repository)
  {
    MarksStable(s.checks, s'.checks, |s.checks|, repository);
    HistoryOneMore(Marks(s, repository), Mark.Restart, c.auth.rateLimit);
    if mark.Checked? { HistoryOneMore(Marks(s, repository), Check(mark.at), c.auth.rateLimit); }
  }

  lemma OneEntry(s: State, s': State, e: Entry, repository: string, t: int)
    requires s'.entries == s.entries + [e]
    ensures Accepted(s', repository, t) == Accepted(s, repository, t)
              + if Lower(e.request.repository) == repository && Inside(e.at, t - 60, t) then 1 else 0
  {
    EntriesStable(s.entries, s'.entries, |s.entries|, repository, t - 60, t);
  }

  /** What authentication does to the limiter and the log. */
  lemma AdmitRates(c: ApiConfig, s: State, r: Request, at: int, repository: string)
    requires Precheck(c.auth, r, at).Authenticated?
    ensures var s' := Admit(c, s, r, at);
            && s'.checks == s.checks + [Checked(Lower(r.repository), at)]
            && Auth.Times(s'.auth, repository) == (if repository == Lower(r.repository) then CheckRate(Auth.Times(s.auth, repository), at, c.auth.rateLimit).0
                                                   else Auth.Times(s.auth, repository))
            && (s'.entries == s.entries || s'.entries == s.entries + [Entry(r, at)])
            && (s'.entries != s.entries ==> CheckRate(Auth.Times(s.auth, Lower(r.repository)), at, c.auth.rateLimit).1)
  {
  }

  lemma AdmitUnchecked(c: ApiConfig, s: State, r: Request, at: int)
    requires !Precheck(c.auth, r, at).Authenticated?
    ensures Admit(c, s, r, at) == s.(now := at)
  {
  }

  lemma AdmitKeepsDeque(c: ApiConfig, s: State, r: Request, at: int, repository: string)
    requires Precheck(c.auth, r, at).Authenticated? && Tracks(Auth.Times(s.auth, repository), AdmissionsOf(c, s, repository))
    ensures var s' := Admit(c, s, r, at); Tracks(Auth.Times(s'.auth, repository), AdmissionsOf(c, s', repository))
    ensures AdmissionsOf(c, Admit(c, s, r, at), repository).times ==
              if repository == Lower(r.repository) && CheckRate(Auth.Times(s.auth, repository), at, c.auth.rateLimit).1
              then AdmissionsOf(c, s, repository).times + [at] else AdmissionsOf(c, s, repository).times
  {
    AdmitRates(c, s, r, at, repository);
    OneMark(c, s, Admit(c, s, r, at), Checked(Lower(r.repository), at), repository);
    CheckTracks(Auth.Times(s.auth, repository), AdmissionsOf(c, s, repository), at, c.auth.rateLimit);
  }

  lemma AdmitKeepsRate(c: ApiConfig, s: State, r: Request, at: int, repository: string, t: int)
    requires RateOk(c, s, repository, t)
    ensures RateOk(c, Admit(c, s, r, at), repository, t)
  {
    if Precheck(c.auth, r, at).Authenticated? {
      AdmitKeepsDeque(c, s, r, at, repository);
      AdmitCounts(c, s, r, at, repository, t);
    } else {
      AdmitUnchecked(c, s, r, at);
    }
  }

  lemma AdmitCounts(c: ApiConfig, s: State, r: Request, at: int, repository: string, t: int)
    requires Precheck(c.auth, r, at).Authenticated? && RateOk(c, s, repository, t)
    ensures var s' := Admit(c, s, r, at); var times := AdmissionsOf(c, s', repository).times;
            Accepted(s', repository, t) <= CountIn(times, |times|, t - 60, t)
  {
    AdmitRates(c, s, r, at, repository);
    AdmitKeepsDeque(c, s, r, at, repository);
    OneMore(AdmissionsOf(c, s, repository).times, at, t);
    var s' := Admit(c, s, r, at);
    if s'.entries != s.entries { OneEntry(s, s', Entry(r, at), repository, t); }
  }

  lemma StepKeepsRate(c: ApiConfig, s: State, e: Event, repository: string, t: int)
    requires RateOk(c, s, repository, t)
    ensures RateOk(c, Do(c, s, e).0, repository, t)
  {
    match e
    case Deploying(r, at, _) => AdmitKeepsRate(c, s, r, at, repository, t);
    case Destroying(r, at, _) => AdmitKeepsRate(c, s, r, at, repository, t);
    case AskingStatus(r, at) => AdmitKeepsRate(c, s, r, at, repository, t);
    case Restarting => OneMark(c, s, AfterRestart(s), Restarted, repository);
    case _ =>
  }

  lemma {:induction false} RunKeepsRate(c: ApiConfig, s: State, events: seq<Event>, repository: string, t: int)
    requires RateOk(c, s, repository, t)
    ensures RateOk(c, Run(c, s, events), repository, t)
    decreases |events|
  {
    if events != [] {
      StepKeepsRate(c, s, events[0], repository, t);
      RunKeepsRate(c, Do(c, s, events[0]).0, events[1..], repository, t);
    }
  }

  // ---------------------------------------------------------------- the clock of a run

  /** The readings of the checks do not decrease, across restarts, and none lies ahead. */
  predicate Ordered(marks: seq<Mark>, now: int) {
    (forall i | 0 <= i < |marks| && marks[i].Check? :: marks[i].at <= now)
    && forall i, j | 0 <= i < j < |marks| && marks[i].Check? && marks[j].Check? :: marks[i].at <= marks[j].at
  }

  lemma StepKeepsOrder(c: ApiConfig, s: State, e: Event, repository: string)
    requires Enabled(s, e) && Ordered(Marks(s, repository), s.now)
    ensures Ordered(Marks(Do(c, s, e).0, repository), Do(c, s, e).0.now)
  {
    var s' := Do(c, s, e).0;
    if s'.checks != s.checks { MarksStable(s.checks, s'.checks, |s.checks|, repository); }
  }

  lemma {:induction false} RunKeepsOrder(c: ApiConfig, s: State, events: seq<Event>, repository: string)
    requires ValidRun(c, s, events) && Ordered(Marks(s, repository), s.now)
    ensures Ordered(Marks(Run(c, s, events), repository), Run(c, s, events).now)
    decreases |events|
  {
    if events != [] {
      StepKeepsOrder(c, s, events[0], repository);
      RunKeepsOrder(c, Do(c, s, events[0]).0, events[1..], repository);
    }
  }

  /** A restart between two checks less than a minute apart. */
  predicate RestartWithin(marks: seq<Mark>) {
    exists i, j, k | 0 <= i < j < k < |marks| :: RestartAt(marks[i], marks[j], marks[k])
  }

  predicate RestartAt(a: Mark, b: Mark, c: Mark) {
    a.Check? && b.Restart? && c.Check? && c.at - a.at < 60
  }

  lemma BackNeedsRestart(marks: seq<Mark>, now: int)
    requires Ordered(marks, now) && StepsBack(marks)
    ensures RestartWithin(marks)
  {
    var i, j, k :| 0 <= i < j < k < |marks| && BackAt(marks[i], marks[j], marks[k]);
    assert RestartAt(marks[i], marks[j], marks[k]);
  }

  lemma RestartStepsBack(marks: seq<Mark>, now: int)
    requires Ordered(marks, now) && RestartWithin(marks)
    ensures StepsBack(marks)
  {
    var i, j, k :| 0 <= i < j < k < |marks| && RestartAt(marks[i], marks[j], marks[k]);
    assert BackAt(marks[i], marks[j], marks[k]);
  }

  /** On an ordered clock only a restart can make the deque forget too early. */
  lemma StepsBackByRestart(marks: seq<Mark>, now: int)
    requires Ordered(marks, now)
    ensures StepsBack(marks) <==> RestartWithin(marks)
  {
    if StepsBack(marks) { BackNeedsRestart(marks, now); }
    if RestartWithin(marks) { RestartStepsBack(marks, now); }
  }

  /** In every run of the handlers the deque of each repository is the end of its history of admissions,
      and the requests authenticated in any window stay within the limit, unless the process restarted
      between two checks of that repository less than a minute apart. */
  lemma RunWithinLimit(c: ApiConfig, start: int, events: seq<Event>, repository: string, t: int)
    requires ValidRun(c, Initial(start), events)
    ensures var s := Run(c, Initial(start), events);
            && Tracks(Auth.Times(s.auth, repository), AdmissionsOf(c, s, repository))
            && (!RestartWithin(Marks(s, repository)) ==>
                  Accepted(s, repository, t) <= if c.auth.rateLimit > 0 then c.auth.rateLimit else 0)
  {
    var s := Run(c, Initial(start), events);
    RunKeepsRate(c, Initial(start), events, repository, t);
    RunKeepsOrder(c, Initial(start), events, repository);
    StepsBackByRestart(Marks(s, repository), s.now);
    if !RestartWithin(Marks(s, repository)) { SteadyHolds(Marks(s, repository), |Marks(s, repository)|, c.auth.rateLimit, t); }
  }

  /** The condition is needed: around a restart a limit of one admits two requests within a second. */
  lemma RestartDoublesRate(c: ApiConfig, r: Request, at: int) returns (events: seq<Event>)
    requires WellFormed(r) && r.nonce != "" && c.auth.rateLimit == 1
    requires Precheck(c.auth, r, at).Authenticated? && Precheck(c.auth, r, at + 1).Authenticated?
    ensures events == [AskingStatus(r, at), Restarting, AskingStatus(r, at + 1)] && ValidRun(c, Initial(at), events)
    ensures Accepted(Run(c, Initial(at), events), Lower(r.repository), at + 1) == 2
  {
    var s, repository := Initial(at), Lower(r.repository);
    Admits(c, s, r, at);
    var s1 := Admit(c, s, r, at);
    events := AndThen(c, s, [], AskingStatus(r, at));
    OneEntry(s, s1, Entry(r, at), repository, at + 1);
    var s2 := AfterRestart(s1);
    events := AndThen(c, s, events, Restarting);
    Admits(c, s2, r, at + 1);
    events := AndThen(c, s, events, AskingStatus(r, at + 1));
    OneEntry(s2, Admit(c, s2, r, at + 1), Entry(r, at + 1), repository, at + 1);
  }
}
