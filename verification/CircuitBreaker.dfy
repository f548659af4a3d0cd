/**
 Notification delivery to one channel: direct sends behind a circuit breaker,
 a retry queue of at most five attempts per job, and the edits and tests that
 reset the breaker. Each delivery is atomic.
 */
module CircuitBreaker {
  import opened Common

  const FAILURE_THRESHOLD := 10
  const BREAKER_COOLDOWN_MS := 60 * 60 * 1000
  const MAX_ATTEMPTS := 5

  datatype Job = Job(attempts: nat, finished: bool)

  datatype Channel = Channel(
    isActive: bool,
    failureCount: nat,
    disabledUntil: Option<int>,
    lastDeliveredAt: Option<int>,
    jobs: seq<Job>,
    // Times of all direct sends so far, and the number of retry sends.
    sent: seq<int>,
    retried: nat)

  datatype Event =
    | Dispatch(ok: bool)
    | Retry(job: nat, ok: bool)
    | Edit(isActive: Option<bool>)
    | Test(ok: bool)

  datatype Timed = Timed(event: Event, at: int)

  predicate Selected(c: Channel, now: int) {
    c.isActive && (c.disabledUntil.None? || c.disabledUntil.value <= now)
  }

  predicate Benched(c: Channel, now: int) { c.disabledUntil.Some? && c.disabledUntil.value > now }

  function Succeeded(c: Channel, now: int): Channel {
    c.(failureCount := 0, disabledUntil := None, lastDeliveredAt := Some(now))
  }

  // A failure that trips the breaker queues no retry.
  function Failed(c: Channel, now: int): Channel {
    if c.failureCount + 1 < FAILURE_THRESHOLD
    then c.(failureCount := c.failureCount + 1, disabledUntil := None, jobs := c.jobs + [Job(0, false)])
    else c.(failureCount := c.failureCount + 1, disabledUntil := Some(now + BREAKER_COOLDOWN_MS))
  }

  function Dispatched(c: Channel, ok: bool, now: int): Channel {
    if !Selected(c, now) then c
    else
      var after := if ok then Succeeded(c, now) else Failed(c, now);
      after.(sent := c.sent + [now])
  }

  // A job is dropped if the channel is inactive or benched; otherwise it is
  // tried again until it succeeds or its attempts are used up.
  function Retried(c: Channel, j: nat, ok: bool, now: int): Channel {
    if j >= |c.jobs| || c.jobs[j].finished then c
    else if !c.isActive || Benched(c, now) then c.(jobs := c.jobs[j := c.jobs[j].(finished := true)])
    else
      var used := c.jobs[j].attempts + 1;
      var tried := c.(retried := c.retried + 1, jobs := c.jobs[j := Job(used, ok || used >= MAX_ATTEMPTS)]);
      if ok then Succeeded(tried, now) else tried
  }

  function Edited(c: Channel, isActive: Option<bool>): Channel {
    c.(isActive := isActive.GetOr(c.isActive), failureCount := 0, disabledUntil := None)
  }

  function Apply(c: Channel, e: Event, now: int): Channel {
    match e
    case Dispatch(ok) => Dispatched(c, ok, now)
    case Retry(j, ok) => Retried(c, j, ok, now)
    case Edit(isActive) => Edited(c, isActive)
    case Test(ok) => if ok then Succeeded(c, now) else c
  }

  function Run(c: Channel, events: seq<Timed>): Channel {
    if events == [] then c
    else Apply(Run(c, events[..|events| - 1]), events[|events| - 1].event, events[|events| - 1].at)
  }

  predicate Clean(c: Channel) {
    c.failureCount == 0 && c.disabledUntil.None? && c.jobs == [] && c.sent == [] && c.retried == 0
  }

  // -------------------------------------------------- The code as written

  class NotificationChannel {
    var isActive: bool
    var failureCount: nat
    var disabledUntil: Option<int>
    var lastDeliveredAt: Option<int>
    var jobs: seq<Job>
    ghost var sent: seq<int>
    ghost var retried: nat

    ghost function State(): Channel
      reads this
    {
      Channel(isActive, failureCount, disabledUntil, lastDeliveredAt, jobs, sent, retried)
    }

    constructor ()
      ensures Clean(State()) && isActive
    {
      isActive, failureCount, disabledUntil, lastDeliveredAt := true, 0, None, None;
      jobs, sent, retried := [], [], 0;
    }

    method DispatchNotification(delivers: bool, now: int)
      modifies this
      ensures State() == Dispatched(old(State()), delivers, now)
    {
      if !isActive { return; }
      if disabledUntil.Some? && disabledUntil.value > now { return; }
      sent := sent + [now];
      if delivers {
        failureCount, disabledUntil, lastDeliveredAt := 0, None, Some(now);
        return;
      }
      failureCount := failureCount + 1;
      var tripped := failureCount >= FAILURE_THRESHOLD;
      disabledUntil := if tripped then Some(now + BREAKER_COOLDOWN_MS) else None;
      if tripped { return; }
      jobs := jobs + [Job(0, false)];
    }

    method RetryDelivery(j: nat, delivers: bool, now: int)
      requires j < |jobs| && !jobs[j].finished
      modifies this
      ensures State() == Retried(old(State()), j, delivers, now)
    {
      if !isActive || (disabledUntil.Some? && disabledUntil.value > now) {
        jobs := jobs[j := jobs[j].(finished := true)];
        return;
      }
      var used := jobs[j].attempts + 1;
      retried := retried + 1;
      jobs := jobs[j := Job(used, delivers || used >= MAX_ATTEMPTS)];
      if delivers {
        failureCount, disabledUntil, lastDeliveredAt := 0, None, Some(now);
      }
    }

    method UpdateChannel(active: Option<bool>)
      modifies this
      ensures State() == Edited(old(State()), active)
    {
      if active.Some? { isActive := active.value; }
      failureCount, disabledUntil := 0, None;
    }

    method TestChannel(delivers: bool, now: int) returns (ok: bool)
      modifies this
      ensures ok == delivers
      ensures State() == if delivers then Succeeded(old(State()), now) else old(State())
    {
      if delivers {
        failureCount, disabledUntil, lastDeliveredAt := 0, None, Some(now);
      }
      return delivers;
    }
  }

  // ------------------------------------------------------- What it bounds

  /** In every run the breaker is open exactly from the tenth consecutive
      failure on. */
  lemma {:induction false} OpenIffTenFailures(c: Channel, events: seq<Timed>)
    requires Clean(c)
    ensures var s := Run(c, events); s.disabledUntil.None? <==> s.failureCount < FAILURE_THRESHOLD
  {
    if events == [] {
    } else {
      OpenIffTenFailures(c, events[..|events| - 1]);
    }
  }

  predicate AllFail(events: seq<Timed>) { forall i :: 0 <= i < |events| ==> Fails(events[i].event) }

  predicate Within(events: seq<Timed>, start: int, end: int) {
    start <= end &&
    forall i :: 0 <= i < |events| ==>
      start <= events[i].at <= end && (i > 0 ==> events[i - 1].at <= events[i].at)
  }

  function Attempts(jobs: seq<Job>): nat {
    if jobs == [] then 0 else Attempts(jobs[..|jobs| - 1]) + jobs[|jobs| - 1].attempts
  }

  lemma {:induction false} AttemptsUpdate(jobs: seq<Job>, j: nat, job: Job)
    requires j < |jobs|
    ensures Attempts(jobs[j := job]) == Attempts(jobs) - jobs[j].attempts + job.attempts
  {
    var last := |jobs| - 1;
    if j == last {
      assert jobs[j := job][..last] == jobs[..last];
    } else {
      assert jobs[j := job][..last] == jobs[..last][j := job];
      AttemptsUpdate(jobs[..last], j, job);
    }
  }

  lemma {:induction false} AttemptsBounded(jobs: seq<Job>)
    requires forall j :: 0 <= j < |jobs| ==> jobs[j].attempts <= MAX_ATTEMPTS
    ensures Attempts(jobs) <= MAX_ATTEMPTS * |jobs|
  {
    if jobs == [] {
    } else {
      AttemptsBounded(jobs[..|jobs| - 1]);
    }
  }

  function Cooldowns(n: nat): nat { n * BREAKER_COOLDOWN_MS }

  lemma CooldownsFit(n: nat, time: int)
    requires Cooldowns(n) <= time
    ensures n <= time / BREAKER_COOLDOWN_MS
  {
  }

  // What a channel that only fails has sent, and how long it is benched.
  predicate SendsInOutage(s: Channel, start: int, clock: int) {
    && s.failureCount == |s.sent|
    && (s.disabledUntil == if |s.sent| < FAILURE_THRESHOLD then None
                           else Some(s.sent[|s.sent| - 1] + BREAKER_COOLDOWN_MS))
    && (|s.sent| >= 1 ==> start <= s.sent[|s.sent| - 1] <= clock)
    && (|s.sent| >= FAILURE_THRESHOLD ==> s.sent[|s.sent| - 1] >= start + Cooldowns(|s.sent| - FAILURE_THRESHOLD))
  }

  // And what it has queued.
  predicate JobsInOutage(s: Channel) {
    && |s.jobs| == (if |s.sent| < FAILURE_THRESHOLD then |s.sent| else FAILURE_THRESHOLD - 1)
    && s.retried == Attempts(s.jobs)
    && (forall j :: 0 <= j < |s.jobs| ==>
          s.jobs[j].attempts <= MAX_ATTEMPTS && (s.jobs[j].attempts == MAX_ATTEMPTS ==> s.jobs[j].finished))
  }

  predicate Outage(s: Channel, start: int, clock: int) { SendsInOutage(s, start, clock) && JobsInOutage(s) }

  lemma SendInOutage(s: Channel, start: int, clock: int, now: int)
    requires SendsInOutage(s, start, clock) && start <= clock <= now && Selected(s, now)
    ensures SendsInOutage(Dispatched(s, false, now), start, now)
  {
    if |s.sent| >= FAILURE_THRESHOLD {
      var n := |s.sent| - FAILURE_THRESHOLD;
      assert Cooldowns(n + 1) == Cooldowns(n) + BREAKER_COOLDOWN_MS;
    }
  }

  lemma NewJob(jobs: seq<Job>)
    ensures Attempts(jobs + [Job(0, false)]) == Attempts(jobs)
  {
    assert (jobs + [Job(0, false)])[..|jobs|] == jobs;
  }

  lemma QueueInOutage(s: Channel, now: int)
    requires JobsInOutage(s) && s.failureCount == |s.sent| && Selected(s, now)
    ensures JobsInOutage(Dispatched(s, false, now))
  {
    NewJob(s.jobs);
  }

  lemma DispatchInOutage(s: Channel, start: int, clock: int, now: int)
    requires Outage(s, start, clock) && start <= clock <= now
    ensures Outage(Dispatched(s, false, now), start, now)
  {
    if Selected(s, now) {
      SendInOutage(s, start, clock, now);
      QueueInOutage(s, now);
    }
  }

  lemma RetryInOutage(s: Channel, start: int, clock: int, j: nat, now: int)
    requires Outage(s, start, clock) && start <= clock <= now
    ensures Outage(Retried(s, j, false, now), start, now)
  {
    if j < |s.jobs| && !s.jobs[j].finished {
      AttemptsUpdate(s.jobs, j, Retried(s, j, false, now).jobs[j]);
    }
  }

  predicate Fails(e: Event) { !e.Edit? && !e.ok }

  lemma StepInOutage(s: Channel, e: Event, start: int, clock: int, now: int)
    requires Outage(s, start, clock) && start <= clock <= now && Fails(e)
    ensures Outage(Apply(s, e, now), start, now)
  {
    match e
    case Dispatch(_) => DispatchInOutage(s, start, clock, now);
    case Retry(j, _) => RetryInOutage(s, start, clock, j, now);
    case Test(_) =>
  }

  lemma {:induction false} OutageState(c: Channel, events: seq<Timed>, start: int, end: int)
    requires Clean(c) && AllFail(events) && Within(events, start, end)
    ensures Outage(Run(c, events), start, if events == [] then start else events[|events| - 1].at)
  {
    if events == [] {
    } else {
      var n := |events| - 1;
      OutageState(c, events[..n], start, end);
      var clock := if n == 0 then start else events[n - 1].at;
      StepInOutage(Run(c, events[..n]), events[n].event, start, clock, events[n].at);
    }
  }

  lemma SendsBounded(s: Channel, start: int, clock: int, end: int)
    requires Outage(s, start, clock) && start <= clock <= end
    ensures |s.sent| <= FAILURE_THRESHOLD + (end - start) / BREAKER_COOLDOWN_MS
  {
    CooldownsFit(0, end - start);
    if |s.sent| > FAILURE_THRESHOLD {
      CooldownsFit(|s.sent| - FAILURE_THRESHOLD, end - start);
    }
  }

  /** While a clean channel only fails for a time T, it is sent to directly at
      most 10 + T / 1h times, at most 9 retry jobs are queued, and they make at
      most 45 retry sends. */
  lemma DeadChannelIsLeftAlone(c: Channel, events: seq<Timed>, start: int, end: int)
    requires Clean(c) && AllFail(events) && Within(events, start, end)
    ensures var s := Run(c, events);
      && |s.sent| <= FAILURE_THRESHOLD + (end - start) / BREAKER_COOLDOWN_MS
      && |s.jobs| <= FAILURE_THRESHOLD - 1
      && s.retried <= MAX_ATTEMPTS * (FAILURE_THRESHOLD - 1)
  {
    OutageState(c, events, start, end);
    SendsBounded(Run(c, events), start, if events == [] then start else events[|events| - 1].at, end);
    AttemptsBounded(Run(c, events).jobs);
  }

  lemma RunOneMore(c: Channel, events: seq<Timed>, e: Timed)
    ensures Run(c, events + [e]) == Apply(Run(c, events), e.event, e.at)
  {
    assert (events + [e])[..|events|] == events;
  }

  lemma {:induction false} RunInTurn(c: Channel, a: seq<Timed>, b: seq<Timed>)
    ensures Run(c, a + b) == Run(Run(c, a), b)
  {
    if b == [] {
      assert a + b == a;
    } else {
      var last := |b| - 1;
      RunInTurn(c, a, b[..last]);
      assert a + b == (a + b[..last]) + [b[last]];
      RunOneMore(c, a + b[..last], b[last]);
    }
  }

  // Retries of one job until its attempts are used up.
  function Attempted(start: int, j: nat, n: nat): seq<Timed> { seq(n, _ => Timed(Retry(j, false), start)) }

  lemma AttemptUsed(s: Channel, start: int, j: nat, k: nat)
    requires s.isActive && s.disabledUntil.None? && j < |s.jobs| && s.jobs[j] == Job(k, false) && k < MAX_ATTEMPTS
    ensures Retried(s, j, false, start) ==
            s.(retried := s.retried + 1, jobs := s.jobs[j := Job(k + 1, k + 1 == MAX_ATTEMPTS)])
  {
  }

  // After n retries of job j, everything else is as before.
  function Used(s: Channel, j: nat, n: nat): Channel
    requires j < |s.jobs|
  {
    s.(retried := s.retried + n, jobs := s.jobs[j := Job(n, n == MAX_ATTEMPTS)])
  }

  lemma {:induction false} AttemptsUsed(s: Channel, start: int, j: nat, n: nat)
    requires s.isActive && s.disabledUntil.None? && j < |s.jobs| && s.jobs[j] == Job(0, false) && n <= MAX_ATTEMPTS
    ensures Run(s, Attempted(start, j, n)) == Used(s, j, n)
  {
    if n == 0 {
      assert s.jobs[j := Job(0, false)] == s.jobs;
    } else {
      AttemptsUsed(s, start, j, n - 1);
      assert Attempted(start, j, n) == Attempted(start, j, n - 1) + [Timed(Retry(j, false), start)];
      RunOneMore(s, Attempted(start, j, n - 1), Timed(Retry(j, false), start));
      AttemptUsed(Used(s, j, n - 1), start, j, n - 1);
      assert s.jobs[j := Job(n - 1, false)][j := Job(n, n == MAX_ATTEMPTS)] == s.jobs[j := Job(n, n == MAX_ATTEMPTS)];
    }
  }

  // Failing events at one moment.
  predicate AllAt(events: seq<Timed>, start: int) { forall i :: 0 <= i < |events| ==> events[i].at == start }

  lemma OutageGoesOn(events: seq<Timed>, start: int, end: int, at: int)
    requires AllFail(events) && Within(events, start, end) && end <= at
    ensures var r := events + [Timed(Dispatch(false), at)]; AllFail(r) && Within(r, start, at)
  {
  }

  predicate AfterRound(s: Channel, n: nat) {
    s.isActive && s.disabledUntil.None? && s.failureCount == n &&
    |s.sent| == n && |s.jobs| == n && s.retried == MAX_ATTEMPTS * n
  }

  lemma OneMoreRound(c: Channel, events: seq<Timed>, start: int, n: nat)
    requires AfterRound(Run(c, events), n) && n + 1 < FAILURE_THRESHOLD
    ensures AfterRound(Run(c, events + [Timed(Dispatch(false), start)] + Attempted(start, n, MAX_ATTEMPTS)), n + 1)
  {
    var sent := events + [Timed(Dispatch(false), start)];
    RunOneMore(c, events, Timed(Dispatch(false), start));
    RunInTurn(c, sent, Attempted(start, n, MAX_ATTEMPTS));
    AttemptsUsed(Run(c, sent), start, n, MAX_ATTEMPTS);
  }

  // A failure and all the retries of its job, n times at once.
  lemma {:induction false} Rounds(c: Channel, start: int, n: nat) returns (events: seq<Timed>)
    requires Clean(c) && c.isActive && n < FAILURE_THRESHOLD
    ensures AllFail(events) && AllAt(events, start) && AfterRound(Run(c, events), n)
  {
    if n == 0 {
      events := [];
    } else {
      var front := Rounds(c, start, n - 1);
      OneMoreRound(c, front, start, n - 1);
      events := front + [Timed(Dispatch(false), start)] + Attempted(start, n - 1, MAX_ATTEMPTS);
    }
  }

  predicate AtBounds(s: Channel, extra: nat) {
    s.isActive && |s.sent| == FAILURE_THRESHOLD + extra && |s.jobs| == FAILURE_THRESHOLD - 1 &&
    s.retried == MAX_ATTEMPTS * (FAILURE_THRESHOLD - 1)
  }

  lemma SentAfterCooldown(s: Channel, start: int, clock: int)
    requires Outage(s, start, clock) && s.isActive && |s.sent| >= FAILURE_THRESHOLD
    ensures var t := Dispatched(s, false, clock + BREAKER_COOLDOWN_MS);
            |t.sent| == |s.sent| + 1 && t.isActive && t.jobs == s.jobs && t.retried == s.retried
  {
    assert Selected(s, clock + BREAKER_COOLDOWN_MS);
  }

  lemma OneMoreCooldown(c: Channel, front: seq<Timed>, start: int, clock: int, extra: nat)
    requires Clean(c) && AllFail(front) && Within(front, start, clock) && AtBounds(Run(c, front), extra)
    requires front != [] && front[|front| - 1].at == clock
    ensures AtBounds(Run(c, front + [Timed(Dispatch(false), clock + BREAKER_COOLDOWN_MS)]), extra + 1)
  {
    OutageState(c, front, start, clock);
    RunOneMore(c, front, Timed(Dispatch(false), clock + BREAKER_COOLDOWN_MS));
    SentAfterCooldown(Run(c, front), start, clock);
  }

  // Nine rounds and a tenth failure.
  lemma TenthFailure(c: Channel, start: int) returns (events: seq<Timed>)
    requires Clean(c) && c.isActive
    ensures AllFail(events) && Within(events, start, start) && AtBounds(Run(c, events), 0)
    ensures events != [] && events[|events| - 1].at == start
  {
    var front := Rounds(c, start, FAILURE_THRESHOLD - 1);
    events := front + [Timed(Dispatch(false), start)];
    OutageGoesOn(front, start, start, start);
    RunOneMore(c, front, Timed(Dispatch(false), start));
  }

  /** All three bounds are reached, and by one run: for every number of cooldowns
      `extra` there is an outage of just that length with 10 + extra direct sends,
      9 retry jobs and 45 retry sends. */
  lemma {:induction false} BoundsAreReached(c: Channel, start: int, extra: nat) returns (events: seq<Timed>)
    requires Clean(c) && c.isActive
    ensures AllFail(events) && Within(events, start, start + Cooldowns(extra)) && AtBounds(Run(c, events), extra)
    ensures events != [] && events[|events| - 1].at == start + Cooldowns(extra)
  {
    if extra == 0 {
      events := TenthFailure(c, start);
    } else {
      var front := BoundsAreReached(c, start, extra - 1);
      var clock := start + Cooldowns(extra - 1);
      OneMoreCooldown(c, front, start, clock, extra - 1);
      OutageGoesOn(front, start, clock, clock + BREAKER_COOLDOWN_MS);
      events := front + [Timed(Dispatch(false), clock + BREAKER_COOLDOWN_MS)];
    }
  }
}
