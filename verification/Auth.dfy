/** Request authentication (src/demo_controller/auth.py): signature freshness, the sliding-window
    rate limiter and the nonce fingerprint. The clock reading is a parameter. */
module Auth {
  import opened Text
  import opened Store

  // ---------------------------------------------------------------- rate limiter

  /** What is left of the deque once all times at its front that are a minute old are dropped. */
  function Expire(times: seq<int>, now: int): seq<int> {
    if times != [] && times[0] <= now - 60 then Expire(times[1..], now) else times
  }

  /** The deque after a check, and whether the request is admitted. */
  function CheckRate(times: seq<int>, now: int, limit: int): (seq<int>, bool) {
    var kept := Expire(times, now);
    if |kept| >= limit then (kept, false) else (kept + [now], true)
  }

  // ---------------------------------------------------------------- the whole history

  /** What happens to the limiter of one repository: a check at a reading of the clock, or a restart of
      the process, which empties the deque. */
  datatype Mark = Check(at: int) | Restart

  /** All admissions so far; those from the `start`-th on are in the deque. */
  datatype Admissions = Admissions(times: seq<int>, start: nat)

  /** The first time, from the `i`-th on, that is not a minute old. */
  function Stale(times: seq<int>, now: int, i: nat): (n: nat)
    requires i <= |times|
    ensures i <= n <= |times|
    decreases |times| - i
  {
    if i < |times| && times[i] <= now - 60 then Stale(times, now, i + 1) else i
  }

  lemma {:induction false} StaleEnds(times: seq<int>, now: int, i: nat)
    requires i <= |times|
    ensures var n := Stale(times, now, i); n < |times| ==> times[n] > now - 60
    ensures forall m | i <= m < Stale(times, now, i) :: times[m] <= now - 60
    decreases |times| - i
  {
    if i < |times| && times[i] <= now - 60 { StaleEnds(times, now, i + 1); }
  }

  function After(before: Admissions, mark: Mark, limit: int): (after: Admissions)
    requires before.start <= |before.times|
    ensures after.start <= |after.times|
  {
    match mark
    case Restart => before.(start := |before.times|)
    case Check(at) =>
      var start := Stale(before.times, at, before.start);
      if |before.times| - start >= limit then Admissions(before.times, start) else Admissions(before.times + [at], start)
  }

  /** The history of admissions after the first `n` marks. */
  function History(marks: seq<Mark>, n: nat, limit: int): (r: Admissions)
    requires n <= |marks|
    ensures r.start <= |r.times|
  {
    if n == 0 then Admissions([], 0) else After(History(marks, n - 1, limit), marks[n - 1], limit)
  }

  /** The deque is the end of the history. */
  predicate Tracks(deque: seq<int>, a: Admissions) {
    a.start <= |a.times| && deque == a.times[a.start..]
  }

  lemma {:induction false} ExpireTracks(deque: seq<int>, a: Admissions, now: int)
    requires Tracks(deque, a)
    ensures Tracks(Expire(deque, now), a.(start := Stale(a.times, now, a.start)))
    decreases |deque|
  {
    if deque != [] && deque[0] <= now - 60 {
      ExpireTracks(deque[1..], a.(start := a.start + 1), now);
    }
  }

  /** A check makes of the deque what it makes of the history. */
  lemma CheckTracks(deque: seq<int>, a: Admissions, at: int, limit: int)
    requires Tracks(deque, a)
    ensures Tracks(CheckRate(deque, at, limit).0, After(a, Check(at), limit))
    ensures After(a, Check(at), limit).times == if CheckRate(deque, at, limit).1 then a.times + [at] else a.times
  {
    ExpireTracks(deque, a, at);
  }

  predicate Inside(x: int, after: int, upTo: int) {
    after < x <= upTo
  }

  /** How many of the first `n` times lie in (after, upTo]. */
  function CountIn(times: seq<int>, n: nat, after: int, upTo: int): nat
    requires n <= |times|
  {
    if n == 0 then 0 else CountIn(times, n - 1, after, upTo) + if Inside(times[n - 1], after, upTo) then 1 else 0
  }

  lemma {:induction false} CountStable(a: seq<int>, b: seq<int>, n: nat, after: int, upTo: int)
    requires n <= |a| && a <= b
    ensures CountIn(a, n, after, upTo) == CountIn(b, n, after, upTo)
  {
    if n > 0 { CountStable(a, b, n - 1, after, upTo); }
  }

  /** If nothing before `m` lies in the window, what does is at most the rest, and all of it if it is. */
  lemma {:induction false} CountRest(times: seq<int>, m: nat, n: nat, after: int, upTo: int)
    requires m <= n <= |times| && forall i | 0 <= i < m :: !Inside(times[i], after, upTo)
    ensures CountIn(times, n, after, upTo) <= n - m
    ensures (forall i | m <= i < n :: Inside(times[i], after, upTo)) ==> CountIn(times, n, after, upTo) == n - m
  {
    if n > m {
      CountRest(times, m, n - 1, after, upTo);
    } else if n > 0 {
      CountRest(times, m - 1, n - 1, after, upTo);
    }
  }

  // ---------------------------------------------------------------- what the deque forgets

  /** A restart, or a reading a minute or more beyond `x`. */
  predicate Forgets(mark: Mark, x: int) {
    mark.Restart? || x + 60 <= mark.at
  }

  /** A check at `x`, and a later mark by which the deque forgets it, among the first `n`. */
  predicate Superseded(marks: seq<Mark>, n: nat, x: int) {
    exists i, j | 0 <= i < j < n && j < |marks| :: marks[i] == Check(x) && Forgets(marks[j], x)
  }

  predicate Checked(marks: seq<Mark>, n: nat, x: int) {
    exists i | 0 <= i < n && i < |marks| :: marks[i] == Check(x)
  }

  /** Admissions come from checks, and those no longer in the deque are superseded. */
  predicate Sound(marks: seq<Mark>, n: nat, a: Admissions) {
    && a.start <= |a.times|
    && (forall m | 0 <= m < a.start :: Superseded(marks, n, a.times[m]))
    && (forall m | 0 <= m < |a.times| :: Checked(marks, n, a.times[m]))
  }

  lemma SupersededLater(marks: seq<Mark>, n: nat, x: int)
    requires n < |marks|
    ensures Superseded(marks, n, x) ==> Superseded(marks, n + 1, x)
    ensures Checked(marks, n, x) ==> Checked(marks, n + 1, x)
    ensures Checked(marks, n, x) && Forgets(marks[n], x) ==> Superseded(marks, n + 1, x)
  {
  }

  /** What has been dropped when the mark after the first `n` is met. */
  function Dropped(a: Admissions, mark: Mark): nat
    requires a.start <= |a.times|
  {
    if mark.Restart? then |a.times| else Stale(a.times, mark.at, a.start)
  }

  lemma DroppedIsSound(marks: seq<Mark>, n: nat, a: Admissions)
    requires n < |marks| && Sound(marks, n, a)
    ensures Sound(marks, n + 1, a.(start := Dropped(a, marks[n])))
  {
    if marks[n].Check? { StaleEnds(a.times, marks[n].at, a.start); }
    forall m | 0 <= m < |a.times|
      ensures Checked(marks, n + 1, a.times[m]) && (m < Dropped(a, marks[n]) ==> Superseded(marks, n + 1, a.times[m]))
    {
      SupersededLater(marks, n, a.times[m]);
    }
  }

  lemma AfterIsSound(marks: seq<Mark>, n: nat, a: Admissions, limit: int)
    requires n < |marks| && Sound(marks, n, a)
    ensures Sound(marks, n + 1, After(a, marks[n], limit))
  {
    DroppedIsSound(marks, n, a);
    if marks[n].Check? { assert Checked(marks, n + 1, marks[n].at); }
  }

  lemma {:induction false} HistoryIsSound(marks: seq<Mark>, n: nat, limit: int)
    requires n <= |marks|
    ensures Sound(marks, n, History(marks, n, limit))
  {
    if n > 0 {
      HistoryIsSound(marks, n - 1, limit);
      AfterIsSound(marks, n - 1, History(marks, n - 1, limit), limit);
    }
  }

  // ---------------------------------------------------------------- one life on a steady clock

  /** One life of the process on a clock that does not run backwards. */
  predicate Steady(marks: seq<Mark>) {
    (forall i | 0 <= i < |marks| :: marks[i].Check?)
    && forall i, j | 0 <= i < j < |marks| && marks[i].Check? && marks[j].Check? :: marks[i].at <= marks[j].at
  }

  predicate Nondecreasing(times: seq<int>) {
    forall i, j | 0 <= i < j < |times| :: times[i] <= times[j]
  }

  lemma CheckedBefore(marks: seq<Mark>, n: nat, x: int)
    requires Steady(marks) && n < |marks| && Checked(marks, n + 1, x)
    ensures x <= marks[n].at
    ensures Superseded(marks, n + 1, x) ==> x <= marks[n].at - 60
  {
  }

  /** What a check on a steady clock finds: old admissions dropped, the rest within the last minute. */
  lemma {:induction false} HistoryOrder(marks: seq<Mark>, n: nat, limit: int)
    requires Steady(marks) && n <= |marks|
    ensures Nondecreasing(History(marks, n, limit).times)
    ensures n < |marks| ==> forall m | 0 <= m < |History(marks, n, limit).times| :: History(marks, n, limit).times[m] <= marks[n].at
  {
    if n > 0 { HistoryOrder(marks, n - 1, limit); }
    if n < |marks| {
      var a := History(marks, n, limit);
      forall m | 0 <= m < |a.times| ensures a.times[m] <= marks[n].at {
        CheckedOf(marks, n, limit, m);
        CheckedBefore(marks, n, a.times[m]);
      }
    }
  }

  lemma CheckedOf(marks: seq<Mark>, n: nat, limit: int, m: nat)
    requires n < |marks| && m < |History(marks, n, limit).times|
    ensures var a := History(marks, n, limit);
            Checked(marks, n + 1, a.times[m]) && (m < Dropped(a, marks[n]) ==> Superseded(marks, n + 1, a.times[m]))
  {
    HistoryIsSound(marks, n, limit);
    DroppedIsSound(marks, n, History(marks, n, limit));
  }

  lemma KeptIsWindow(marks: seq<Mark>, n: nat, limit: int, a: Admissions, now: int)
    requires Steady(marks) && n < |marks| && a == History(marks, n, limit) && now == marks[n].at
    ensures forall m | 0 <= m < Stale(a.times, now, a.start) :: !Inside(a.times[m], now - 60, now)
    ensures forall m | Stale(a.times, now, a.start) <= m < |a.times| :: Inside(a.times[m], now - 60, now)
  {
    var start := Stale(a.times, now, a.start);
    HistoryOrder(marks, n, limit);
    StaleEnds(a.times, now, a.start);
    forall m | 0 <= m < start ensures a.times[m] <= now - 60 {
      CheckedOf(marks, n, limit, m);
      CheckedBefore(marks, n, a.times[m]);
    }
  }

  /** In one life of the process, with a nondecreasing clock, the deque holds exactly the admissions of
      the last sixty seconds, and a check admits exactly if they are fewer than the limit. */
  lemma DequeIsWindow(marks: seq<Mark>, n: nat, limit: int, before: Admissions, after: Admissions, now: int)
    requires Steady(marks) && n < |marks| && now == marks[n].at
    requires before == History(marks, n, limit) && after == History(marks, n + 1, limit)
    ensures forall m | 0 <= m < |after.times| :: m >= after.start <==> Inside(after.times[m], now - 60, now)
    ensures after.times == if CountIn(before.times, |before.times|, now - 60, now) < limit then before.times + [now] else before.times
  {
    var start := Stale(before.times, now, before.start);
    KeptIsWindow(marks, n, limit, before, now);
    CountRest(before.times, start, |before.times|, now - 60, now);
    assert marks[n] == Check(now);
    assert after == After(before, Check(now), limit);
    forall m | 0 <= m < |after.times| ensures m >= after.start <==> Inside(after.times[m], now - 60, now) {
      if m < |before.times| { assert after.times[m] == before.times[m]; }
    }
  }

  // ---------------------------------------------------------------- when the limiter holds

  /** A reading, then a mark by which it is forgotten, then a reading less than a minute from it. */
  predicate StepsBack(marks: seq<Mark>) {
    exists i, j, k | 0 <= i < j < k < |marks| :: BackAt(marks[i], marks[j], marks[k])
  }

  predicate BackAt(a: Mark, b: Mark, c: Mark) {
    a.Check? && c.Check? && Forgets(b, a.at) && -60 < c.at - a.at < 60
  }

  /** The admissions in the window (t - 60, t] are within the limit. */
  predicate WithinLimit(times: seq<int>, limit: int, t: int) {
    CountIn(times, |times|, t - 60, t) <= if limit > 0 then limit else 0
  }

  lemma SharedWindow(marks: seq<Mark>, n: nat, x: int, t: int)
    requires n < |marks| && marks[n].Check?
    requires Superseded(marks, n + 1, x) && Inside(x, t - 60, t) && Inside(marks[n].at, t - 60, t)
    ensures StepsBack(marks)
  {
    var i, j :| 0 <= i < j < n + 1 && marks[i] == Check(x) && Forgets(marks[j], x);
    assert j < n && BackAt(marks[i], marks[j], marks[n]);
  }

  lemma KeptFits(marks: seq<Mark>, n: nat, limit: int, t: int)
    requires n < |marks| && marks[n].Check? && !StepsBack(marks) && Inside(marks[n].at, t - 60, t)
    ensures var a := History(marks, n, limit);
            CountIn(a.times, |a.times|, t - 60, t) <= |a.times| - Stale(a.times, marks[n].at, a.start)
  {
    var a := History(marks, n, limit);
    var start := Stale(a.times, marks[n].at, a.start);
    forall m | 0 <= m < start ensures !Inside(a.times[m], t - 60, t) {
      CheckedOf(marks, n, limit, m);
      if Inside(a.times[m], t - 60, t) { SharedWindow(marks, n, a.times[m], t); }
    }
    CountRest(a.times, start, |a.times|, t - 60, t);
  }

  lemma AdmissionHolds(a: Admissions, at: int, limit: int, t: int)
    requires a.start <= |a.times| && WithinLimit(a.times, limit, t)
    requires Inside(at, t - 60, t) ==> CountIn(a.times, |a.times|, t - 60, t) <= |a.times| - Stale(a.times, at, a.start)
    ensures WithinLimit(After(a, Check(at), limit).times, limit, t)
  {
    OneMore(a.times, at, t);
  }

  lemma OneMore(times: seq<int>, x: int, t: int)
    ensures CountIn(times + [x], |times| + 1, t - 60, t) == CountIn(times, |times|, t - 60, t) + if Inside(x, t - 60, t) then 1 else 0
  {
    CountStable(times, times + [x], |times|, t - 60, t);
  }

  /** Unless the marks step back that far, no window ever holds more than the limit: what was forgotten
      cannot share a window with the present reading. */
  lemma {:induction false} SteadyHolds(marks: seq<Mark>, n: nat, limit: int, t: int)
    requires n <= |marks| && !StepsBack(marks)
    ensures WithinLimit(History(marks, n, limit).times, limit, t)
  {
    if n > 0 {
      SteadyHolds(marks, n - 1, limit, t);
      if marks[n - 1].Check? {
        if Inside(marks[n - 1].at, t - 60, t) { KeptFits(marks, n - 1, limit, t); }
        AdmissionHolds(History(marks, n - 1, limit), marks[n - 1].at, limit, t);
      }
    }
  }

  /** Within one life of the process the limiter holds on a clock that never runs backwards. */
  lemma RateNeverExceeded(marks: seq<Mark>, limit: int, t: int)
    requires Steady(marks)
    ensures WithinLimit(History(marks, |marks|, limit).times, limit, t)
  {
    SteadyHolds(marks, |marks|, limit, t);
  }

  // ---------------------------------------------------------------- under any load

  /** A load: so many checks at each of the first `n` readings, and each restart. */
  function Load(readings: seq<Mark>, counts: seq<nat>, n: nat): seq<Mark>
    requires n <= |readings| == |counts|
  {
    if n == 0 then [] else Load(readings, counts, n - 1) + seq(Weight(readings, counts, n - 1), _ => readings[n - 1])
  }

  function Weight(readings: seq<Mark>, counts: seq<nat>, n: nat): nat
    requires n < |readings| == |counts|
  {
    if readings[n].Restart? then 1 else counts[n]
  }

  /** Each mark of a load is one of the readings, in their order. */
  lemma {:induction false} LoadIsSample(readings: seq<Mark>, counts: seq<nat>, n: nat) returns (at: seq<nat>)
    requires n <= |readings| == |counts|
    ensures |at| == |Load(readings, counts, n)|
    ensures forall m | 0 <= m < |at| :: at[m] < n && Load(readings, counts, n)[m] == readings[at[m]]
    ensures forall m, m' | 0 <= m < m' < |at| :: at[m] <= at[m']
  {
    at := [];
    if n > 0 {
      var before := LoadIsSample(readings, counts, n - 1);
      at := before + seq(Weight(readings, counts, n - 1), _ => n - 1);
    }
  }

  lemma SampleStepsBack(marks: seq<Mark>, readings: seq<Mark>, at: seq<nat>)
    requires |at| == |marks| && (forall m | 0 <= m < |at| :: at[m] < |readings| && marks[m] == readings[at[m]])
    requires forall m, m' | 0 <= m < m' < |at| :: at[m] <= at[m']
    requires StepsBack(marks)
    ensures StepsBack(readings)
  {
    var i, j, k :| 0 <= i < j < k < |marks| && BackAt(marks[i], marks[j], marks[k]);
    assert at[i] <= at[j] <= at[k] && at[i] != at[j] && at[j] != at[k];
    assert BackAt(readings[at[i]], readings[at[j]], readings[at[k]]);
  }

  lemma LoadStepsBack(readings: seq<Mark>, counts: seq<nat>)
    requires |readings| == |counts| && StepsBack(Load(readings, counts, |readings|))
    ensures StepsBack(readings)
  {
    var at := LoadIsSample(readings, counts, |readings|);
    SampleStepsBack(Load(readings, counts, |readings|), readings, at);
  }

  /** Admissions after a load. */
  function Loaded(readings: seq<Mark>, counts: seq<nat>, limit: int, n: nat): (r: Admissions)
    requires n <= |readings| == |counts|
    ensures r.start <= |r.times|
  {
    History(Load(readings, counts, n), |Load(readings, counts, n)|, limit)
  }

  lemma {:induction false} HistoryStable(a: seq<Mark>, b: seq<Mark>, n: nat, limit: int)
    requires n <= |a| && a <= b
    ensures History(a, n, limit) == History(b, n, limit)
  {
    if n > 0 { HistoryStable(a, b, n - 1, limit); }
  }

  /** Every window of the load is within the limit. */
  predicate LoadHolds(readings: seq<Mark>, counts: seq<nat>, limit: int, t: int)
    requires |readings| == |counts|
  {
    WithinLimit(Loaded(readings, counts, limit, |readings|).times, limit, t)
  }

  lemma SteadyLoadHolds(readings: seq<Mark>, counts: seq<nat>, limit: int, t: int)
    requires |counts| == |readings| && !StepsBack(readings)
    ensures LoadHolds(readings, counts, limit, t)
  {
    var marks := Load(readings, counts, |readings|);
    if StepsBack(marks) { LoadStepsBack(readings, counts); }
    SteadyHolds(marks, |marks|, limit, t);
  }

  // ---------------------------------------------------------------- loads that break the limit

  predicate Idle(counts: seq<nat>, m: nat, n: nat) {
    forall r | m <= r < n && r < |counts| :: counts[r] == 0
  }

  predicate RestartIn(readings: seq<Mark>, m: nat, n: nat) {
    exists r | m <= r < n && r < |readings| :: readings[r].Restart?
  }

  /** Admissions after at most two checks at one reading. */
  function UpToTwo(before: Admissions, mark: Mark, count: nat, limit: int): (after: Admissions)
    requires before.start <= |before.times|
    ensures after.start <= |after.times|
  {
    if count == 0 then before
    else if count == 1 then After(before, mark, limit)
    else After(After(before, mark, limit), mark, limit)
  }

  lemma HistoryOne(marks: seq<Mark>, n: nat, limit: int, h: Admissions)
    requires n < |marks| && h == History(marks, n, limit)
    ensures History(marks, n + 1, limit) == UpToTwo(h, marks[n], 1, limit)
  {
  }

  lemma HistoryTwo(marks: seq<Mark>, n: nat, limit: int, h: Admissions)
    requires n + 1 < |marks| && marks[n] == marks[n + 1] && h == History(marks, n, limit)
    ensures History(marks, n + 2, limit) == UpToTwo(h, marks[n], 2, limit)
  {
    var one := UpToTwo(h, marks[n], 1, limit);
    HistoryOne(marks, n, limit, h);
    HistoryOne(marks, n + 1, limit, one);
  }

  /** What a few more of the same mark do. */
  lemma HistoryGrows(before: seq<Mark>, after: seq<Mark>, mark: Mark, count: nat, limit: int, h: Admissions, n: nat, m: nat)
    requires before <= after && n == |before| && m == |after| == n + count && count <= 2
    requires forall i | n <= i < m :: after[i] == mark
    requires h == History(before, n, limit)
    ensures History(after, m, limit) == UpToTwo(h, mark, count, limit)
  {
    assert h == History(after, n, limit) by { HistoryStable(before, after, n, limit); }
    if count == 1 {
      HistoryOne(after, n, limit, h);
      assert m == n + 1;
    } else if count == 2 {
      HistoryTwo(after, n, limit, h);
      assert m == n + 2;
    } else {
      assert m == n;
    }
  }

  lemma LoadGrows(readings: seq<Mark>, counts: seq<nat>, n: nat)
    requires n < |readings| == |counts|
    ensures var before, after := Load(readings, counts, n), Load(readings, counts, n + 1);
            && before <= after && |after| == |before| + Weight(readings, counts, n)
            && forall m | |before| <= m < |after| :: after[m] == readings[n]
  {
  }

  lemma LoadedStep(readings: seq<Mark>, counts: seq<nat>, limit: int, n: nat)
    requires n < |readings| == |counts| && counts[n] <= 2
    ensures Loaded(readings, counts, limit, n + 1) == UpToTwo(Loaded(readings, counts, limit, n), readings[n], Weight(readings, counts, n), limit)
  {
    LoadGrows(readings, counts, n);
    HistoryGrows(Load(readings, counts, n), Load(readings, counts, n + 1), readings[n], Weight(readings, counts, n), limit,
                 Loaded(readings, counts, limit, n), |Load(readings, counts, n)|, |Load(readings, counts, n + 1)|);
  }

  /** Without checks nothing happens but restarts. */
  lemma {:induction false} IdleLoad(readings: seq<Mark>, counts: seq<nat>, limit: int, m: nat, n: nat)
    requires m <= n <= |readings| == |counts| && Idle(counts, m, n)
    ensures var before := Loaded(readings, counts, limit, m);
            Loaded(readings, counts, limit, n) == if RestartIn(readings, m, n) then before.(start := |before.times|) else before
  {
    if m < n {
      IdleLoad(readings, counts, limit, m, n - 1);
      LoadedStep(readings, counts, limit, n - 1);
      assert RestartIn(readings, m, n) <==> RestartIn(readings, m, n - 1) || readings[n - 1].Restart?;
    }
  }

  /** From one reading with checks to the next. */
  lemma NextLoad(readings: seq<Mark>, counts: seq<nat>, limit: int, m: nat, n: nat, before: Admissions)
    requires m <= n < |readings| == |counts| && Idle(counts, m, n) && readings[n].Check? && counts[n] <= 2
    requires before == Loaded(readings, counts, limit, m)
    ensures Loaded(readings, counts, limit, n + 1)
            == UpToTwo(if RestartIn(readings, m, n) then before.(start := |before.times|) else before, readings[n], counts[n], limit)
  {
    IdleLoad(readings, counts, limit, m, n);
    LoadedStep(readings, counts, limit, n);
  }

  /** `x` checks at reading `i`, one at `j`, one at `k`, and no other. */
  function Few(n: nat, x: nat, i: nat, j: nat, k: nat): (counts: seq<nat>) {
    seq(n, m => if m == i then x else if m == j || m == k then 1 else 0)
  }

  lemma OneCheck(times: seq<int>, at: int)
    ensures UpToTwo(Admissions(times, |times|), Check(at), 1, 1) == Admissions(times + [at], |times|)
  {
  }

  /** A limit of one admits two checks around a restart. */
  lemma RestartBreaksRate(readings: seq<Mark>, i: nat, k: nat) returns (counts: seq<nat>)
    requires i < k < |readings| && readings[i].Check? && readings[k].Check? && RestartIn(readings, i + 1, k)
    ensures |counts| == |readings| && Loaded(readings, counts, 1, |readings|).times == [readings[i].at, readings[k].at]
  {
    var a, d := readings[i].at, readings[k].at;
    counts := Few(|readings|, 1, i, k, k);
    assert counts[i] == counts[k] == 1 && Idle(counts, 0, i) && Idle(counts, i + 1, k) && Idle(counts, k + 1, |readings|);
    assert Loaded(readings, counts, 1, i + 1) == Admissions([a], 0) by {
      NextLoad(readings, counts, 1, 0, i, Admissions([], 0));
      OneCheck([], a);
      assert [] + [a] == [a];
    }
    assert Loaded(readings, counts, 1, k + 1).times == [a, d] by {
      NextLoad(readings, counts, 1, i + 1, k, Admissions([a], 0));
      OneCheck([a], d);
      assert [a] + [d] == [a, d];
    }
    IdleLoad(readings, counts, 1, k + 1, |readings|);
  }

  lemma TwoChecks(a: int)
    ensures UpToTwo(Admissions([], 0), Check(a), 2, 2) == Admissions([a, a], 0)
  {
    assert [] + [a] == [a] && [a] + [a] == [a, a];
  }

  lemma LaterCheck(a: int, b: int)
    requires a + 60 <= b
    ensures UpToTwo(Admissions([a, a], 0), Check(b), 1, 2) == Admissions([a, a, b], 2)
  {
    StaleEnds([a, a], b, 0);
    assert [a, a] + [b] == [a, a, b];
  }

  lemma BackCheck(a: int, b: int, d: int)
    requires a + 60 <= b && d < a + 60
    ensures UpToTwo(Admissions([a, a, b], 2), Check(d), 1, 2) == Admissions([a, a, b, d], 2)
  {
    assert [a, a, b] + [d] == [a, a, b, d];
  }

  /** Without a restart a limit of two admits four checks, three of them within a minute. */
  lemma StepBackBreaksRate(readings: seq<Mark>, i: nat, j: nat, k: nat) returns (counts: seq<nat>)
    requires i < j < k < |readings| && BackAt(readings[i], readings[j], readings[k]) && !RestartIn(readings, i + 1, k)
    ensures |counts| == |readings|
    ensures var (a, b, d) := (readings[i].at, readings[j].at, readings[k].at);
            Loaded(readings, counts, 2, |readings|).times == [a, a, b, d]
  {
    var a, b, d := readings[i].at, readings[j].at, readings[k].at;
    counts := Few(|readings|, 2, i, j, k);
    assert counts[i] == 2 && counts[j] == counts[k] == 1;
    assert Idle(counts, 0, i) && Idle(counts, i + 1, j) && Idle(counts, j + 1, k) && Idle(counts, k + 1, |readings|);
    assert Loaded(readings, counts, 2, i + 1) == Admissions([a, a], 0) by {
      NextLoad(readings, counts, 2, 0, i, Admissions([], 0));
      TwoChecks(a);
    }
    assert Loaded(readings, counts, 2, j + 1) == Admissions([a, a, b], 2) by {
      NextLoad(readings, counts, 2, i + 1, j, Admissions([a, a], 0));
      LaterCheck(a, b);
    }
    assert Loaded(readings, counts, 2, k + 1).times == [a, a, b, d] by {
      NextLoad(readings, counts, 2, j + 1, k, Admissions([a, a, b], 2));
      BackCheck(a, b, d);
    }
    IdleLoad(readings, counts, 2, k + 1, |readings|);
  }

  lemma CountPair(a: int, d: int)
    requires -60 < d - a < 60
    ensures var t := if a < d then d else a; CountIn([a, d], 2, t - 60, t) == 2
  {
    var t := if a < d then d else a;
    CountRest([a, d], 0, 2, t - 60, t);
  }

  lemma CountFour(a: int, b: int, d: int)
    requires -60 < d - a < 60
    ensures var t := if a < d then d else a; CountIn([a, a, b, d], 4, t - 60, t) >= 3
  {
    var t := if a < d then d else a;
    CountRest([a, a, b, d], 0, 2, t - 60, t);
    assert CountIn([a, a, b, d], 3, t - 60, t) >= CountIn([a, a, b, d], 2, t - 60, t);
  }

  lemma SomeLoadBreaks(readings: seq<Mark>) returns (counts: seq<nat>, limit: int, t: int)
    requires StepsBack(readings)
    ensures |counts| == |readings| && !LoadHolds(readings, counts, limit, t)
  {
    var i: nat, j: nat, k: nat :| i < j < k < |readings| && BackAt(readings[i], readings[j], readings[k]);
    var a, d := readings[i].at, readings[k].at;
    t := if a < d then d else a;
    if RestartIn(readings, i + 1, k) {
      limit := 1;
      counts := RestartBreaksRate(readings, i, k);
      CountPair(a, d);
    } else {
      limit := 2;
      counts := StepBackBreaksRate(readings, i, j, k);
      CountFour(a, readings[j].at, d);
    }
  }

  /** The limiter keeps every window within every limit, however many checks come at each reading of the
      clock and wherever the process restarts, exactly if no reading comes less than a minute from one
      that the deque has forgotten. */
  lemma RateHoldsIff(readings: seq<Mark>)
    ensures (forall counts: seq<nat>, limit: int, t: int | |counts| == |readings| :: LoadHolds(readings, counts, limit, t))
            <==> !StepsBack(readings)
  {
    if StepsBack(readings) {
      var counts, limit, t := SomeLoadBreaks(readings);
    } else {
      forall counts: seq<nat>, limit: int, t: int | |counts| == |readings| ensures LoadHolds(readings, counts, limit, t) {
        SteadyLoadHolds(readings, counts, limit, t);
      }
    }
  }

  // ---------------------------------------------------------------- freshness

  /** A message may be presented while its timestamp is at most `maxAge` away. */
  predicate FreshAt(timestamp: int, now: int, maxAge: int) {
    -maxAge <= now - timestamp <= maxAge
  }

  // ---------------------------------------------------------------- fingerprints

  predicate OneLine(s: string) {
    '\n' !in s
  }

  /** The joined fields whose digest is the request fingerprint. */
  function Joined(repository: string, verb: string, path: string, nonce: string, body: string): string {
    repository + "\n" + (verb + "\n" + (path + "\n" + (nonce + "\n" + body)))
  }

  lemma JoinOnce(a: string, x: string, b: string, y: string)
    requires OneLine(a) && OneLine(b) && a + "\n" + x == b + "\n" + y
    ensures a == b && x == y
  {
    var s := a + "\n" + x;
    assert s[|a|] == '\n' && s[|b|] == '\n';
    assert forall i | 0 <= i < |a| :: s[i] == a[i] && a[i] in a;
    assert forall i | 0 <= i < |b| :: s[i] == b[i] && b[i] in b;
    assert a == s[..|a|] && b == s[..|b|];
    assert x == s[|a| + 1..] && y == s[|b| + 1..];
  }

  /** Joining is injective when the leading fields hold no newline; the body may hold any. */
  lemma JoinInjective(r1: string, v1: string, p1: string, n1: string, b1: string,
                      r2: string, v2: string, p2: string, n2: string, b2: string)
    requires OneLine(r1) && OneLine(v1) && OneLine(p1) && OneLine(n1)
    requires OneLine(r2) && OneLine(v2) && OneLine(p2) && OneLine(n2)
    ensures Joined(r1, v1, p1, n1, b1) == Joined(r2, v2, p2, n2, b2)
            <==> r1 == r2 && v1 == v2 && p1 == p2 && n1 == n2 && b1 == b2
  {
    if Joined(r1, v1, p1, n1, b1) == Joined(r2, v2, p2, n2, b2) {
      var x1, x2 := NonceAndBody(n1, b1), NonceAndBody(n2, b2);
      JoinOnce(r1, v1 + "\n" + (p1 + "\n" + x1), r2, v2 + "\n" + (p2 + "\n" + x2));
      JoinOnce(v1, p1 + "\n" + x1, v2, p2 + "\n" + x2);
      JoinOnce(p1, x1, p2, x2);
      JoinOnce(n1, b1, n2, b2);
    }
  }

  function NonceAndBody(nonce: string, body: string): string {
    nonce + "\n" + body
  }

  // ---------------------------------------------------------------- authentication

  /** The headers and body that authentication reads. `timestamp` is what `int()` makes of
      `timestampText`, if it accepts it. */
  datatype Request = Request(
    repository: string, verb: string, path: string,
    timestampText: string, timestamp: Option<int>,
    nonce: string, signature: string, body: string)

  /** `retention` is how long a nonce row is kept. */
  datatype AuthConfig = AuthConfig(
    credentials: map<string, string>,
    hmac: (string, string) -> string,
    sha256: string -> string,
    maxAge: nat,
    retention: nat,
    rateLimit: int)

  /** The controller keeps a nonce for twice the signature age. */
  type ControllerConfig = c: AuthConfig | c.retention == 2 * c.maxAge
    witness AuthConfig(map[], (_: string, _: string) => "", (_: string) => "", 0, 0, 0)

  datatype AuthState = AuthState(requests: map<string, seq<int>>, nonces: Nonces)

  datatype Outcome =
    | Authenticated(repository: string)
    | UnknownCredential | InvalidTimestamp | StaleSignature | InvalidSignature
    | RateLimited | ReplayedDelivery

  function UpperChar(c: char): char {
    if 'a' <= c <= 'z' then (c as int - 32) as char else c
  }

  function Upper(s: string): string {
    seq(|s|, i requires 0 <= i < |s| => UpperChar(s[i]))
  }

  function Canonical(r: Request): string {
    Joined(Upper(r.verb), r.path, r.timestampText, r.nonce, r.body)
  }

  function Fingerprint(c: AuthConfig, r: Request): string {
    c.sha256(Joined(Lower(r.repository), Upper(r.verb), r.path, r.nonce, r.body))
  }

  function RemovePrefix(s: string, prefix: string): string {
    if prefix <= s then s[|prefix|..] else s
  }

  /** The checks before anything is recorded. */
  function Precheck(c: AuthConfig, r: Request, now: int): Outcome {
    var repository := Lower(r.repository);
    if repository !in c.credentials || c.credentials[repository] == "" then UnknownCredential
    else if r.timestamp.None? then InvalidTimestamp
    else if !FreshAt(r.timestamp.value, now, c.maxAge) then StaleSignature
    else if c.hmac(c.credentials[repository], Canonical(r)) != RemovePrefix(r.signature, "sha256=")
    then InvalidSignature
    else Authenticated(repository)
  }

  function Times(s: AuthState, repository: string): seq<int> {
    if repository in s.requests then s.requests[repository] else []
  }

  function Authenticate(c: AuthConfig, s: AuthState, r: Request, now: int): (AuthState, Outcome) {
    var pre := Precheck(c, r, now);
    if !pre.Authenticated? then (s, pre)
    else
      var repository := pre.repository;
      var (times, admitted) := CheckRate(Times(s, repository), now, c.rateLimit);
      var requests := s.requests[repository := times];
      if !admitted then (AuthState(requests, s.nonces), RateLimited)
      else if r.nonce == "" then (AuthState(requests, s.nonces), ReplayedDelivery)
      else
        var (nonces, used) := UseNonce(s.nonces, NonceKey(repository, r.nonce), Fingerprint(c, r), now, c.retention);
        (AuthState(requests, nonces), if used then pre else ReplayedDelivery)
  }

  class Authenticator {
    const config: ControllerConfig
    const store: DemoStore
    var requests: map<string, seq<int>>

    constructor (config: ControllerConfig, store: DemoStore)
      ensures this.config == config && this.store == store && requests == map[]
    {
      this.config, this.store, requests := config, store, map[];
    }

    /** `_check_rate`: returns false instead of raising a 429 response. */
    method CheckRateLimit(repository: string, now: int) returns (admitted: bool)
      modifies this`requests
      ensures var times := if repository in old(requests) then old(requests)[repository] else [];
              && requests == old(requests)[repository := CheckRate(times, now, config.rateLimit).0]
              && admitted == CheckRate(times, now, config.rateLimit).1
    {
      var deque := if repository in requests then requests[repository] else [];
      ghost var initial := deque;
      while deque != [] && deque[0] <= now - 60
        invariant Expire(deque, now) == Expire(initial, now)
        decreases |deque|
      {
        deque := deque[1..];
      }
      if |deque| >= config.rateLimit {
        requests := requests[repository := deque];
        return false;
      }
      requests := requests[repository := deque + [now]];
      return true;
    }

    method AuthenticateRequest(r: Request, now: int) returns (outcome: Outcome)
      modifies this`requests, store`nonces
      ensures (AuthState(requests, store.nonces), outcome)
              == Authenticate(config, AuthState(old(requests), old(store.nonces)), r, now)
    {
      var repository := Lower(r.repository);
      if repository !in config.credentials || config.credentials[repository] == "" {
        return UnknownCredential;
      }
      if r.timestamp.None? {
        return InvalidTimestamp;
      }
      if !FreshAt(r.timestamp.value, now, config.maxAge) {
        return StaleSignature;
      }
      var expected := config.hmac(config.credentials[repository], Canonical(r));
      if expected != RemovePrefix(r.signature, "sha256=") {
        return InvalidSignature;
      }
      var admitted := CheckRateLimit(repository, now);
      if !admitted {
        return RateLimited;
      }
      if r.nonce == "" {
        return ReplayedDelivery;
      }
      var used := store.Use(repository, r.nonce, Fingerprint(config, r), now, config.maxAge * 2);
      if !used {
        return ReplayedDelivery;
      }
      return Authenticated(repository);
    }
  }
}
