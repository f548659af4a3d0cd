/**
 What holds over whole runs of the check state machine: incidents never
 overlap, status, failure counter and incident agree, a heartbeat monitor is
 DOWN exactly when it is overdue; and the two situations (maintenance, pause
 and resume) in which an outage stays without an incident or without a verdict.
 */
module IncidentHistory {
  import opened Common
  import opened MonitorEngine

  // A handler may have read another version of the row (seen) and of the
  // incidents (activeSeen); Edit is any other write to the monitor row.
  datatype Event =
    | Result(seen: Monitor, ping: PingResult, activeSeen: bool)
    | Beat
    | Sweep
    | Acknowledge(incident: nat, user: nat)
    | Resolve(incident: nat)
    | Pause
    | Resume
    | Edit(monitor: Monitor)

  datatype Timed = Timed(event: Event, at: int)

  function Apply(rows: Rows, e: Event, at: int): Rows {
    match e
    case Result(seen, ping, activeSeen) => CheckEffect(rows, seen, ping, activeSeen, at)
    case Beat => Beaten(rows, at)
    case Sweep => Swept(rows, at)
    case Acknowledge(i, user) => AcknowledgedBy(rows, i, user, at)
    case Resolve(i) => ManuallyResolved(rows, i, at)
    case Pause => PausedByUser(rows)
    case Resume => ResumedByUser(rows)
    case Edit(m) => rows.(monitor := m)
  }

  function Run(rows: Rows, events: seq<Timed>): Rows {
    if events == [] then rows
    else Apply(Run(rows, events[..|events| - 1]), events[|events| - 1].event, events[|events| - 1].at)
  }

  // Times never go back, and none is before start.
  predicate Chronological(start: int, events: seq<Timed>) {
    events == [] ||
    (Chronological(start, events[..|events| - 1]) &&
     End(start, events[..|events| - 1]) <= events[|events| - 1].at)
  }

  function End(start: int, events: seq<Timed>): int {
    if events == [] then start else events[|events| - 1].at
  }

  // ------------------------------------------------------------- No overlap

  predicate Before(a: Incident, b: Incident) {
    a.status.Resolved? && a.resolvedAt.Some? && a.resolvedAt.value <= b.startedAt
  }

  // Incidents follow one another: each is resolved before the next starts.
  predicate WellTimed(incidents: seq<Incident>, clock: int) {
    && (forall i :: 0 <= i < |incidents| ==>
         && incidents[i].startedAt <= clock
         && (incidents[i].status.Resolved? <==> incidents[i].resolvedAt.Some?)
         && (incidents[i].status.Resolved? ==>
               incidents[i].startedAt <= incidents[i].resolvedAt.value <= clock))
    && (forall i, j :: 0 <= i < j < |incidents| ==> Before(incidents[i], incidents[j]))
  }

  // later keeps every incident of earlier, and the resolved ones unchanged.
  predicate Extends(later: seq<Incident>, earlier: seq<Incident>) {
    && |earlier| <= |later|
    && (forall i :: 0 <= i < |earlier| ==>
         && later[i].startedAt == earlier[i].startedAt
         && later[i].title == earlier[i].title
         && (earlier[i].status.Resolved? ==> later[i] == earlier[i]))
  }

  predicate Covers(i: Incident, t: int) {
    i.startedAt <= t && (i.resolvedAt.None? || t < i.resolvedAt.value)
  }

  lemma ResolvingKeepsWellTimed(incidents: seq<Incident>, clock: int, at: int)
    requires WellTimed(incidents, clock) && clock <= at
    ensures WellTimed(ResolveAll(incidents, at), at)
    ensures Extends(ResolveAll(incidents, at), incidents)
  {
    var r := ResolveAll(incidents, at);
    forall i, j | 0 <= i < j < |r|
      ensures Before(r[i], r[j])
    {
      assert Before(incidents[i], incidents[j]);
    }
  }

  lemma OpeningKeepsWellTimed(incidents: seq<Incident>, title: Title, clock: int, at: int)
    requires WellTimed(incidents, clock) && clock <= at && !HasActive(incidents)
    ensures WellTimed(incidents + [Incident(Open, title, at, None, None, None)], at)
  {
    assert forall i :: 0 <= i < |incidents| ==> !Active(incidents[i]);
  }

  lemma CheckKeepsWellTimed(rows: Rows, seen: Monitor, ping: PingResult, activeSeen: bool, clock: int, at: int)
    requires WellTimed(rows.incidents, clock) && clock <= at
    ensures var after := IncidentsAfter(rows.incidents, seen, ping, activeSeen, at);
            WellTimed(after, at) && Extends(after, rows.incidents)
  {
    ResolvingKeepsWellTimed(rows.incidents, clock, at);
    if !HasActive(rows.incidents) {
      OpeningKeepsWellTimed(rows.incidents, CheckTitle(seen, ping), clock, at);
    }
  }

  lemma TouchingKeepsWellTimed(incidents: seq<Incident>, k: nat, touched: Incident, clock: int, at: int)
    requires WellTimed(incidents, clock) && clock <= at && k < |incidents| && Active(incidents[k])
    requires touched.startedAt == incidents[k].startedAt && touched.title == incidents[k].title
    requires if touched.status.Resolved? then touched.resolvedAt == Some(at)
             else touched.resolvedAt == incidents[k].resolvedAt
    ensures WellTimed(incidents[k := touched], at)
    ensures Extends(incidents[k := touched], incidents)
  {
    var last := |incidents| - 1;
    assert k < last ==> Before(incidents[k], incidents[last]);
  }

  lemma BeatKeepsWellTimed(rows: Rows, clock: int, at: int)
    requires WellTimed(rows.incidents, clock) && clock <= at
    ensures WellTimed(Beaten(rows, at).incidents, at) && Extends(Beaten(rows, at).incidents, rows.incidents)
  {
    var beat := rows.(monitor := rows.monitor.(lastHeartbeatAt := Some(at)));
    CheckKeepsWellTimed(beat, beat.monitor, BeatResult(rows.monitor), HasActive(beat.incidents), clock, at);
  }

  lemma SweepKeepsWellTimed(rows: Rows, clock: int, at: int)
    requires WellTimed(rows.incidents, clock) && clock <= at
    ensures WellTimed(Swept(rows, at).incidents, at) && Extends(Swept(rows, at).incidents, rows.incidents)
  {
    if !HasActive(rows.incidents) {
      OpeningKeepsWellTimed(rows.incidents, MissTitle(rows.monitor, at), clock, at);
    }
  }

  lemma UserKeepsWellTimed(rows: Rows, k: nat, user: nat, clock: int, at: int)
    requires WellTimed(rows.incidents, clock) && clock <= at
    ensures var after := AcknowledgedBy(rows, k, user, at).incidents;
            WellTimed(after, at) && Extends(after, rows.incidents)
    ensures var after := ManuallyResolved(rows, k, at).incidents;
            WellTimed(after, at) && Extends(after, rows.incidents)
  {
    if k < |rows.incidents| && Active(rows.incidents[k]) {
      TouchingKeepsWellTimed(rows.incidents, k, AcknowledgedBy(rows, k, user, at).incidents[k], clock, at);
      TouchingKeepsWellTimed(rows.incidents, k, ManuallyResolved(rows, k, at).incidents[k], clock, at);
    }
  }

  lemma EventKeepsWellTimed(rows: Rows, e: Event, clock: int, at: int)
    requires WellTimed(rows.incidents, clock) && clock <= at
    ensures WellTimed(Apply(rows, e, at).incidents, at)
    ensures Extends(Apply(rows, e, at).incidents, rows.incidents)
  {
    match e
    case Result(seen, ping, activeSeen) => CheckKeepsWellTimed(rows, seen, ping, activeSeen, clock, at);
    case Beat => BeatKeepsWellTimed(rows, clock, at);
    case Sweep => SweepKeepsWellTimed(rows, clock, at);
    case Acknowledge(k, user) => UserKeepsWellTimed(rows, k, user, clock, at);
    case Resolve(k) => UserKeepsWellTimed(rows, k, 0, clock, at);
    case Pause | Resume | Edit(_) =>
  }

  lemma {:induction false} RunKeepsWellTimed(rows: Rows, events: seq<Timed>, start: int)
    requires WellTimed(rows.incidents, start) && Chronological(start, events)
    ensures WellTimed(Run(rows, events).incidents, End(start, events))
  {
    if events == [] {
    } else {
      var n := |events| - 1;
      RunKeepsWellTimed(rows, events[..n], start);
      EventKeepsWellTimed(Run(rows, events[..n]), events[n].event, End(start, events[..n]), events[n].at);
    }
  }

  /** Over any run, whatever the handlers had read: at most one incident is
      active, and no instant lies in two incidents. */
  lemma IncidentsNeverOverlap(monitor: Monitor, events: seq<Timed>, start: int)
    requires Chronological(start, events)
    ensures var incidents := Run(Rows(monitor, [], []), events).incidents;
      && WellTimed(incidents, End(start, events))
      && (forall i :: 0 <= i < |incidents| - 1 ==> !Active(incidents[i]))
      && (forall i, j, t :: 0 <= i < j < |incidents| && Covers(incidents[i], t) ==> !Covers(incidents[j], t))
  {
    RunKeepsWellTimed(Rows(monitor, [], []), events, start);
    var incidents := Run(Rows(monitor, [], []), events).incidents;
    forall i | 0 <= i < |incidents| - 1
      ensures !Active(incidents[i])
    {
      assert Before(incidents[i], incidents[|incidents| - 1]);
    }
    forall i, j, t | 0 <= i < j < |incidents| && Covers(incidents[i], t)
      ensures !Covers(incidents[j], t)
    {
      assert Before(incidents[i], incidents[j]);
    }
  }

  /** What is resolved at some point of a run is the same at every later one. */
  lemma {:induction false} ResolvedIncidentsNeverChange(monitor: Monitor, events: seq<Timed>, k: nat, start: int)
    requires Chronological(start, events) && k <= |events|
    ensures Extends(Run(Rows(monitor, [], []), events).incidents,
                    Run(Rows(monitor, [], []), events[..k]).incidents)
  {
    var n := |events| - 1;
    if k == |events| {
      assert events[..k] == events;
    } else {
      assert events[..n][..k] == events[..k];
      ResolvedIncidentsNeverChange(monitor, events[..n], k, start);
      RunKeepsWellTimed(Rows(monitor, [], []), events[..n], start);
      var before := Run(Rows(monitor, [], []), events[..n]);
      EventKeepsWellTimed(before, events[n].event, End(start, events[..n]), events[n].at);
    }
  }

  // ------------------------------- Status, counter and incident agree

  // Atomic handlers, no maintenance, no pause, no manual resolve.
  datatype Quiet = Probe(ping: PingResult) | Pulse | Watch | Ack(incident: nat, user: nat)

  datatype QuietAt = QuietAt(event: Quiet, at: int)

  function Step(rows: Rows, q: QuietAt): Rows {
    match q.event
    case Probe(ping) => Checked(rows, ping, q.at)
    case Pulse => Beaten(rows, q.at)
    case Watch => Swept(rows, q.at)
    case Ack(i, user) => AcknowledgedBy(rows, i, user, q.at)
  }

  function Steps(rows: Rows, qs: seq<QuietAt>): Rows {
    if qs == [] then rows else Step(Steps(rows, qs[..|qs| - 1]), qs[|qs| - 1])
  }

  predicate Failing(m: Monitor) { m.status.Down? || m.status.Degraded? }

  predicate Agrees(rows: Rows) {
    && (Failing(rows.monitor) || rows.monitor.status.Up?)
    && (Failing(rows.monitor) <==> rows.monitor.failures >= rows.monitor.graceThreshold)
    && (Failing(rows.monitor) <==> HasActive(rows.incidents))
    && (forall i :: 0 <= i < |rows.incidents| - 1 ==> !Active(rows.incidents[i]))
  }

  predicate Unattended(m: Monitor) {
    m.graceThreshold >= 1 && m.isActive && m.maintenanceStartAt.None?
  }

  predicate Fresh(rows: Rows) {
    rows.monitor.status.Up? && rows.monitor.failures == 0 && rows.checks == [] && rows.incidents == []
  }

  predicate SameConfig(a: Monitor, b: Monitor) {
    && a.graceThreshold == b.graceThreshold && a.isActive == b.isActive && a.isHeartbeat == b.isHeartbeat
    && a.createdAt == b.createdAt && a.intervalSeconds == b.intervalSeconds
    && a.gracePeriodSeconds == b.gracePeriodSeconds && a.maintenanceStartAt == b.maintenanceStartAt
  }

  lemma AppendedIsActive(incidents: seq<Incident>, i: Incident)
    requires Active(i)
    ensures HasActive(incidents + [i])
  {
    assert (incidents + [i])[|incidents|] == i;
  }

  lemma AllResolved(incidents: seq<Incident>, at: int)
    ensures !HasActive(ResolveAll(incidents, at))
  {
  }

  lemma CheckKeepsAgreement(rows: Rows, ping: PingResult, at: int)
    requires Agrees(rows) && Unattended(rows.monitor)
    ensures Agrees(Checked(rows, ping, at))
  {
    AllResolved(rows.incidents, at);
    AppendedIsActive(rows.incidents, Incident(Open, CheckTitle(rows.monitor, ping), at, None, None, None));
  }

  lemma AckKeepsActive(rows: Rows, i: nat, user: nat, at: int)
    ensures HasActive(AcknowledgedBy(rows, i, user, at).incidents) <==> HasActive(rows.incidents)
  {
    var after := AcknowledgedBy(rows, i, user, at).incidents;
    forall k | 0 <= k < |after| ensures Active(after[k]) <==> Active(rows.incidents[k]) {}
    if HasActive(rows.incidents) {
      var k :| 0 <= k < |rows.incidents| && Active(rows.incidents[k]);
      assert Active(after[k]);
    }
  }

  lemma StepKeepsAgreement(rows: Rows, q: QuietAt)
    requires Agrees(rows) && Unattended(rows.monitor)
    ensures Agrees(Step(rows, q))
    ensures SameConfig(Step(rows, q).monitor, rows.monitor)
  {
    match q.event
    case Probe(ping) => CheckKeepsAgreement(rows, ping, q.at);
    case Pulse =>
      var beat := rows.(monitor := rows.monitor.(lastHeartbeatAt := Some(q.at)));
      CheckKeepsAgreement(beat, BeatResult(rows.monitor), q.at);
    case Watch =>
      AppendedIsActive(rows.incidents, Incident(Open, MissTitle(rows.monitor, q.at), q.at, None, None, None));
    case Ack(i, user) => AckKeepsActive(rows, i, user, q.at);
  }

  /** In every reachable state: DOWN or DEGRADED iff the counter has reached the
      threshold iff an incident is active; otherwise UP with none. */
  lemma {:induction false} StatusCounterAndIncidentAgree(rows: Rows, qs: seq<QuietAt>)
    requires Fresh(rows) && Unattended(rows.monitor)
    ensures Agrees(Steps(rows, qs))
    ensures SameConfig(Steps(rows, qs).monitor, rows.monitor)
  {
    if qs == [] {
    } else {
      StatusCounterAndIncidentAgree(rows, qs[..|qs| - 1]);
      StepKeepsAgreement(Steps(rows, qs[..|qs| - 1]), qs[|qs| - 1]);
    }
  }

  // ---------------------------------------------------- Heartbeat verdict

  function LastBeat(qs: seq<QuietAt>): Option<int> {
    if qs == [] then None
    else if qs[|qs| - 1].event.Pulse? then Some(qs[|qs| - 1].at)
    else LastBeat(qs[..|qs| - 1])
  }

  predicate BeatsAndSweeps(qs: seq<QuietAt>, start: int) {
    forall i :: 0 <= i < |qs| ==>
      && (qs[i].event.Pulse? || qs[i].event.Watch?)
      && start <= qs[i].at && (i > 0 ==> qs[i - 1].at <= qs[i].at)
  }

  // When the monitor becomes overdue, from the history alone.
  function Deadline(created: Monitor, qs: seq<QuietAt>): int {
    LastBeat(qs).GetOr(created.createdAt) + (created.intervalSeconds + created.gracePeriodSeconds) * 1000
  }

  predicate NewHeartbeat(rows: Rows) {
    Fresh(rows) && Unattended(rows.monitor) && rows.monitor.isHeartbeat &&
    rows.monitor.lastHeartbeatAt.None? && rows.monitor.tlsDaysRemaining.None?
  }

  lemma {:induction false} HeartbeatState(rows: Rows, qs: seq<QuietAt>, start: int)
    requires NewHeartbeat(rows) && BeatsAndSweeps(qs, start)
    ensures var r := Steps(rows, qs);
            && Agrees(r) && SameConfig(r.monitor, rows.monitor)
            && r.monitor.tlsDaysRemaining.None?
            && !r.monitor.status.Degraded?
            && r.monitor.lastHeartbeatAt == LastBeat(qs)
            && (r.monitor.status.Down? ==> qs != [] && qs[|qs| - 1].at > HeartbeatDeadline(r.monitor))
  {
    StatusCounterAndIncidentAgree(rows, qs);
    if qs == [] {
    } else {
      HeartbeatState(rows, qs[..|qs| - 1], start);
    }
  }

  /** Right after a sweep at t the monitor is DOWN exactly when t is past the
      last beat (or its creation) plus interval plus grace; and then exactly
      one incident is active. */
  lemma SweepVerdictIsExact(rows: Rows, qs: seq<QuietAt>, start: int, t: int)
    requires NewHeartbeat(rows) && BeatsAndSweeps(qs, start)
    requires forall i :: 0 <= i < |qs| ==> qs[i].at <= t
    ensures var r := Swept(Steps(rows, qs), t);
            && (r.monitor.status.Down? <==> t > Deadline(rows.monitor, qs))
            && (r.monitor.status.Up? <==> t <= Deadline(rows.monitor, qs))
            && (HasActive(r.incidents) <==> t > Deadline(rows.monitor, qs))
  {
    HeartbeatState(rows, qs, start);
    var before := Steps(rows, qs);
    StepKeepsAgreement(before, QuietAt(Watch, t));
  }

  /** However often the sweep runs again, nothing more happens until a beat. */
  lemma {:induction false} LaterSweepsAddNothing(rows: Rows, times: seq<int>)
    requires rows.monitor.status.Down?
    ensures Steps(rows, Sweeps(times)) == rows
  {
    if times == [] {
    } else {
      assert Sweeps(times)[..|times| - 1] == Sweeps(times[..|times| - 1]);
      LaterSweepsAddNothing(rows, times[..|times| - 1]);
    }
  }

  function Sweeps(times: seq<int>): (r: seq<QuietAt>)
    ensures |r| == |times|
  {
    seq(|times|, i requires 0 <= i < |times| => QuietAt(Watch, times[i]))
  }

  // ----------------------------------- Where the verdict does not come

  /** An overdue monitor is flagged by the sweep if and only if none of its
      incidents is still active: a second one violates the unique index and the
      miss is rolled back with it. */
  lemma OverdueIsFlaggedIff(rows: Rows, t: int)
    requires rows.monitor.isHeartbeat && rows.monitor.isActive && !UnderMaintenance(rows.monitor, t)
    requires HeartbeatOverdue(rows.monitor, t) && !rows.monitor.status.Down?
    ensures Swept(rows, t).monitor.status.Down? <==> !HasActive(rows.incidents)
  {
  }

  /** So after pause and resume during an outage the monitor shows UP at every
      later sweep, however overdue it is. */
  lemma {:induction false} ResumedOutageStaysUp(rows: Rows, times: seq<int>)
    requires rows.monitor.status.Down? && HasActive(rows.incidents) && rows.monitor.maintenanceStartAt.None?
    ensures var resumed := ResumedByUser(PausedByUser(rows));
            Steps(resumed, Sweeps(times)) == resumed && resumed.monitor.status.Up?
  {
    if times == [] {
    } else {
      assert Sweeps(times)[..|times| - 1] == Sweeps(times[..|times| - 1]);
      ResumedOutageStaysUp(rows, times[..|times| - 1]);
    }
  }

  // Overdue, paused by the user, resumed, and swept again.
  function PausedOutage(t: int, later: int): seq<Timed> {
    [Timed(Sweep, t), Timed(Pause, t), Timed(Resume, t), Timed(Sweep, later)]
  }

  lemma RunOneMore(rows: Rows, events: seq<Timed>, e: Timed)
    ensures Run(rows, events + [e]) == Apply(Run(rows, events), e.event, e.at)
  {
    assert (events + [e])[..|events|] == events;
  }

  lemma RunOfFour(rows: Rows, a: Timed, b: Timed, c: Timed, d: Timed)
    ensures Run(rows, [a, b, c, d]) ==
            Apply(Apply(Apply(Apply(rows, a.event, a.at), b.event, b.at), c.event, c.at), d.event, d.at)
  {
    RunOneMore(rows, [], a);
    RunOneMore(rows, [] + [a], b);
    RunOneMore(rows, [] + [a] + [b], c);
    RunOneMore(rows, [] + [a] + [b] + [c], d);
    assert [a, b, c, d] == [] + [a] + [b] + [c] + [d];
  }

  lemma FirstMiss(rows: Rows, t: int)
    requires NewHeartbeat(rows) && HeartbeatDeadline(rows.monitor) < t
    ensures var r := Swept(rows, t);
      && r.monitor.status.Down? && HasActive(r.incidents)
      && SameConfig(r.monitor, rows.monitor) && r.monitor.lastHeartbeatAt.None?
  {
    assert Swept(rows, t) == Missed(rows, t);
    AppendedIsActive(rows.incidents, Incident(Open, MissTitle(rows.monitor, t), t, None, None, None));
  }

  /** Such a run of a new heartbeat monitor that never beats, for any two times
      past its deadline: it ends overdue, with the incident open, and UP. */
  lemma PausedOutageEndsUp(rows: Rows, t: int, later: int)
    requires NewHeartbeat(rows) && HeartbeatDeadline(rows.monitor) < t <= later
    ensures Swept(rows, t).monitor.status.Down?
    ensures var r := Run(rows, PausedOutage(t, later));
            HeartbeatOverdue(r.monitor, later) && HasActive(r.incidents) && r.monitor.isActive && r.monitor.status.Up?
  {
    RunOfFour(rows, Timed(Sweep, t), Timed(Pause, t), Timed(Resume, t), Timed(Sweep, later));
    FirstMiss(rows, t);
  }

  datatype PingAt = PingAt(ping: PingResult, at: int)

  function Checks(rows: Rows, pings: seq<PingAt>): Rows {
    if pings == [] then rows
    else Checked(Checks(rows, pings[..|pings| - 1]), pings[|pings| - 1].ping, pings[|pings| - 1].at)
  }

  // No outage is going on, whatever there was before.
  predicate AllQuiet(rows: Rows) {
    rows.monitor.status.Up? && rows.monitor.failures == 0 && !HasActive(rows.incidents)
  }

  predicate AllFail(m: Monitor, pings: seq<PingAt>) {
    forall i :: 0 <= i < |pings| ==> !Healthy(m, pings[i].ping)
  }

  // The incident of the outage: opened by the check that reaches the threshold.
  function Opened(rows: Rows, pings: seq<PingAt>): seq<Incident> {
    var n := rows.monitor.graceThreshold;
    if 1 <= n <= |pings| && !UnderMaintenance(rows.monitor, pings[n - 1].at)
    then [Incident(Open, CheckTitle(rows.monitor, pings[n - 1].ping), pings[n - 1].at, None, None, None)]
    else []
  }

  predicate SameOutageConfig(a: Monitor, b: Monitor) {
    && a.graceThreshold == b.graceThreshold && a.sslWarningDays == b.sslWarningDays
    && a.maintenanceStartAt == b.maintenanceStartAt && a.maintenanceEndAt == b.maintenanceEndAt
  }

  predicate InOutage(rows: Rows, pings: seq<PingAt>, r: Rows) {
    var last := |pings| - 1;
    && r.monitor.failures == |pings|
    && SameOutageConfig(r.monitor, rows.monitor)
    && r.incidents == rows.incidents + Opened(rows, pings)
    && (|pings| < rows.monitor.graceThreshold ==> (r.monitor.status.Up? || r.monitor.status.Paused?))
    && (1 <= rows.monitor.graceThreshold <= |pings| && !UnderMaintenance(rows.monitor, pings[last].at) ==>
          if pings[last].ping.isUp then r.monitor.status.Degraded? else r.monitor.status.Down?)
  }

  lemma FailedCheck(r: Rows, p: PingAt)
    requires !Healthy(r.monitor, p.ping)
    ensures var t := Checked(r, p.ping, p.at);
      && t.monitor.failures == r.monitor.failures + 1
      && SameOutageConfig(t.monitor, r.monitor)
      && t.monitor.status == StatusAfter(r.monitor, p.ping, p.at)
      && t.incidents == if CrossesThreshold(r.monitor, p.ping, p.at) && !HasActive(r.incidents)
                        then r.incidents + [Incident(Open, CheckTitle(r.monitor, p.ping), p.at, None, None, None)]
                        else r.incidents
  {
  }

  lemma OpenedOneMore(rows: Rows, pings: seq<PingAt>)
    requires pings != [] && rows.monitor.graceThreshold >= 1
    ensures |pings| != rows.monitor.graceThreshold ==>
              Opened(rows, pings) == Opened(rows, pings[..|pings| - 1])
    ensures |pings| == rows.monitor.graceThreshold ==>
              Opened(rows, pings[..|pings| - 1]) == [] &&
              (Opened(rows, pings) != [] <==> !UnderMaintenance(rows.monitor, pings[|pings| - 1].at))
  {
  }

  lemma OutageGoesOn(rows: Rows, pings: seq<PingAt>, r: Rows)
    requires AllQuiet(rows) && rows.monitor.graceThreshold >= 1 && AllFail(rows.monitor, pings) && pings != []
    requires InOutage(rows, pings[..|pings| - 1], r)
    ensures InOutage(rows, pings, Checked(r, pings[|pings| - 1].ping, pings[|pings| - 1].at))
  {
    FailedCheck(r, pings[|pings| - 1]);
    OpenedOneMore(rows, pings);
    assert rows.incidents + [] == rows.incidents;
  }

  lemma {:induction false} OutageState(rows: Rows, pings: seq<PingAt>)
    requires AllQuiet(rows) && rows.monitor.graceThreshold >= 1 && AllFail(rows.monitor, pings)
    ensures InOutage(rows, pings, Checks(rows, pings))
  {
    if pings == [] {
      assert rows.incidents + Opened(rows, pings) == rows.incidents;
    } else {
      OutageState(rows, pings[..|pings| - 1]);
      OutageGoesOn(rows, pings, Checks(rows, pings[..|pings| - 1]));
    }
  }

  /** An outage of at least graceThreshold failing checks, offline or by its
      certificate, opens one incident if and only if the check that reaches the
      threshold runs outside maintenance. If it runs inside, the monitor is DOWN
      or DEGRADED afterwards with no new incident, however long it goes on. */
  lemma OutageOpensIncidentIff(rows: Rows, pings: seq<PingAt>)
    requires AllQuiet(rows) && rows.monitor.graceThreshold >= 1 && AllFail(rows.monitor, pings)
    requires |pings| >= rows.monitor.graceThreshold
    requires !UnderMaintenance(rows.monitor, pings[|pings| - 1].at)
    ensures var r := Checks(rows, pings);
            var n := rows.monitor.graceThreshold;
            && Failing(r.monitor)
            && (|r.incidents| == |rows.incidents| + 1 <==> !UnderMaintenance(rows.monitor, pings[n - 1].at))
            && (HasActive(r.incidents) <==> !UnderMaintenance(rows.monitor, pings[n - 1].at))
            && rows.incidents <= r.incidents && |r.incidents| <= |rows.incidents| + 1
  {
    OutageState(rows, pings);
    var more := Opened(rows, pings);
    if more != [] {
      AppendedIsActive(rows.incidents, more[0]);
    } else {
      assert rows.incidents + more == rows.incidents;
    }
  }

  predicate AllHealthy(m: Monitor, pings: seq<PingAt>) {
    forall i :: 0 <= i < |pings| ==> Healthy(m, pings[i].ping)
  }

  // Once the monitor is not failing, healthy checks leave the incidents alone.
  lemma {:induction false} HealthyChecksResolveNothing(rows: Rows, pings: seq<PingAt>)
    requires AllHealthy(rows.monitor, pings) && !Failing(rows.monitor)
    ensures var r := Checks(rows, pings);
            && r.incidents == rows.incidents && !Failing(r.monitor)
            && r.monitor.sslWarningDays == rows.monitor.sslWarningDays
  {
    if pings == [] {
    } else {
      HealthyChecksResolveNothing(rows, pings[..|pings| - 1]);
    }
  }

  lemma {:induction false} HealthyChecksResolveOnce(rows: Rows, pings: seq<PingAt>)
    requires AllHealthy(rows.monitor, pings) && Failing(rows.monitor) && pings != []
    ensures var r := Checks(rows, pings);
            && !HasActive(r.incidents) && !Failing(r.monitor)
            && r.monitor.sslWarningDays == rows.monitor.sslWarningDays
  {
    AllResolved(rows.incidents, pings[0].at);
    if |pings| == 1 {
      assert pings[..0] == [];
    } else {
      HealthyChecksResolveOnce(rows, pings[..|pings| - 1]);
    }
  }

  /** A recovery resolves the active incident if and only if the monitor shows DOWN
      or DEGRADED when it begins. Otherwise the incident stays as it was however
      many healthy results land, and goes on counting as downtime. */
  lemma RecoveryResolvesIff(rows: Rows, pings: seq<PingAt>)
    requires HasActive(rows.incidents) && AllHealthy(rows.monitor, pings) && pings != []
    ensures HasActive(Checks(rows, pings).incidents) <==> !Failing(rows.monitor)
    ensures !Failing(rows.monitor) ==> Checks(rows, pings).incidents == rows.incidents
  {
    if Failing(rows.monitor) {
      HealthyChecksResolveOnce(rows, pings);
    } else {
      HealthyChecksResolveNothing(rows, pings);
    }
  }

  /** So after pause and resume during an outage no recovery resolves it. */
  lemma ResumedOutageIsNeverResolved(rows: Rows, pings: seq<PingAt>)
    requires HasActive(rows.incidents) && AllHealthy(rows.monitor, pings)
    ensures Checks(ResumedByUser(PausedByUser(rows)), pings).incidents == rows.incidents
  {
    HealthyChecksResolveNothing(ResumedByUser(PausedByUser(rows)), pings);
  }
}
