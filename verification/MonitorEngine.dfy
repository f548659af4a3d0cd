/**
 The check state machine of one monitor: how a probe result, a heartbeat, a
 missed heartbeat or a user action changes its row, its check log and its
 incidents. Times are milliseconds on one clock.

 `seen` is the monitor row a handler read before it wrote; `activeSeen` says
 whether it read any active incident. An atomic handler reads what is stored.
 */
module MonitorEngine {
  import opened Common

  const SSL_EXPIRY_WARNING_DAYS := 7

  datatype Status = Up | Down | Degraded | Paused

  datatype Monitor = Monitor(
    status: Status,
    failures: nat,
    graceThreshold: nat,
    isActive: bool,
    isHeartbeat: bool,
    createdAt: int,
    intervalSeconds: nat,
    gracePeriodSeconds: nat,
    lastHeartbeatAt: Option<int>,
    lastCheckedAt: Option<int>,
    dispatchedAt: Option<int>,
    nextCheckAt: Option<int>,
    maintenanceStartAt: Option<int>,
    maintenanceEndAt: Option<int>,
    sslWarningDays: Option<int>,
    tlsIssuer: Option<string>,
    tlsValidTo: Option<int>,
    tlsDaysRemaining: Option<int>,
    lastStatusCode: Option<int>,
    lastResponseTime: Option<int>)

  datatype PingResult = PingResult(
    isUp: bool,
    statusCode: int,
    latencyMs: int,
    errorMessage: Option<string>,
    tlsIssuer: Option<string>,
    tlsValidTo: Option<int>,
    tlsDaysRemaining: Option<int>,
    tlsValid: Option<bool>,
    tlsError: Option<string>)

  datatype Title =
    | HttpThresholdBreached(statusCode: int)
    | NodeOffline(error: string)
    | TlsInvalid(tlsError: Option<string>)
    | TlsExpiresIn(days: Option<int>)
    | HeartbeatMissed(seconds: int)

  datatype CheckRow = CheckRow(
    status: Status,
    statusCode: Option<int>,
    responseTimeMs: Option<int>,
    error: Option<string>,
    missed: Option<Title>,
    checkedAt: int)

  datatype IncidentStatus = Open | Acknowledged | Resolved

  datatype Incident = Incident(
    status: IncidentStatus,
    title: Title,
    startedAt: int,
    resolvedAt: Option<int>,
    acknowledgedAt: Option<int>,
    acknowledgedBy: Option<nat>)

  // Everything stored about one monitor; incidents in creation order.
  datatype Rows = Rows(monitor: Monitor, checks: seq<CheckRow>, incidents: seq<Incident>)

  predicate Active(i: Incident) { i.status.Open? || i.status.Acknowledged? }

  predicate HasActive(incidents: seq<Incident>) {
    exists i :: 0 <= i < |incidents| && Active(incidents[i])
  }

  predicate InWindow(startAt: Option<int>, endAt: Option<int>, now: int) {
    startAt.Some? && endAt.Some? && startAt.value <= now <= endAt.value
  }

  predicate UnderMaintenance(m: Monitor, now: int) { InWindow(m.maintenanceStartAt, m.maintenanceEndAt, now) }

  predicate SslFailing(m: Monitor, ping: PingResult) {
    (ping.tlsDaysRemaining.Some? &&
     ping.tlsDaysRemaining.value <= m.sslWarningDays.GetOr(SSL_EXPIRY_WARNING_DAYS)) ||
    ping.tlsValid == Some(false)
  }

  predicate Healthy(m: Monitor, ping: PingResult) { ping.isUp && !SslFailing(m, ping) }

  function ResolveAll(incidents: seq<Incident>, now: int): (r: seq<Incident>)
    ensures |r| == |incidents|
    ensures forall i :: 0 <= i < |r| ==>
              r[i] == if Active(incidents[i])
                      then incidents[i].(status := Resolved, resolvedAt := Some(now))
                      else incidents[i]
  {
    seq(|incidents|, i requires 0 <= i < |incidents| =>
      if Active(incidents[i]) then incidents[i].(status := Resolved, resolvedAt := Some(now))
      else incidents[i])
  }

  // ------------------------------------------------------------ What one result does

  // A failing result that reaches the threshold sets DEGRADED when only the
  // certificate is at fault, DOWN otherwise.
  function FailingStatus(ping: PingResult): Status { if ping.isUp then Degraded else Down }

  function FailuresAfter(seen: Monitor, ping: PingResult): nat {
    if Healthy(seen, ping) then 0 else seen.failures + 1
  }

  function StatusAfter(seen: Monitor, ping: PingResult, now: int): Status {
    if UnderMaintenance(seen, now) then Paused
    else if Healthy(seen, ping) then Up
    else if seen.failures + 1 >= seen.graceThreshold then FailingStatus(ping)
    else seen.status
  }

  predicate CrossesThreshold(seen: Monitor, ping: PingResult, now: int) {
    !Healthy(seen, ping) && seen.failures + 1 == seen.graceThreshold &&
    seen.status != FailingStatus(ping) && !UnderMaintenance(seen, now)
  }

  function CheckTitle(seen: Monitor, ping: PingResult): Title {
    if ping.isUp then
      if ping.tlsValid == Some(false) then TlsInvalid(ping.tlsError) else TlsExpiresIn(ping.tlsDaysRemaining)
    else if ping.errorMessage.Some? && ping.errorMessage.value != "" then NodeOffline(ping.errorMessage.value)
    else HttpThresholdBreached(ping.statusCode)
  }

  function MonitorAfter(stored: Monitor, seen: Monitor, ping: PingResult, now: int): Monitor {
    stored.(
      status := StatusAfter(seen, ping, now),
      failures := FailuresAfter(seen, ping),
      lastCheckedAt := Some(now),
      dispatchedAt := None,
      nextCheckAt := Some(now + seen.intervalSeconds * 1000),
      tlsIssuer := ping.tlsIssuer,
      tlsValidTo := ping.tlsValidTo,
      tlsDaysRemaining := ping.tlsDaysRemaining,
      lastStatusCode := Some(ping.statusCode),
      lastResponseTime := Some(ping.latencyMs))
  }

  function CheckLogged(seen: Monitor, ping: PingResult, now: int): CheckRow {
    CheckRow(if StatusAfter(seen, ping, now).Degraded? then Degraded else if ping.isUp then Up else Down,
             Some(ping.statusCode), Some(ping.latencyMs),
             if ping.errorMessage.Some? then ping.errorMessage else ping.tlsError, None, now)
  }

  function IncidentsAfter(incidents: seq<Incident>, seen: Monitor, ping: PingResult, activeSeen: bool, now: int)
    : seq<Incident>
  {
    if CrossesThreshold(seen, ping, now) && !HasActive(incidents) then
      incidents + [Incident(Open, CheckTitle(seen, ping), now, None, None, None)]
    else if Healthy(seen, ping) && (seen.status.Down? || seen.status.Degraded?) && activeSeen then
      ResolveAll(incidents, now)
    else incidents
  }

  function CheckEffect(rows: Rows, seen: Monitor, ping: PingResult, activeSeen: bool, now: int): Rows {
    Rows(MonitorAfter(rows.monitor, seen, ping, now),
         rows.checks + [CheckLogged(seen, ping, now)],
         IncidentsAfter(rows.incidents, seen, ping, activeSeen, now))
  }

  // An atomic handler: it acts on what is stored.
  function Checked(rows: Rows, ping: PingResult, now: int): Rows {
    CheckEffect(rows, rows.monitor, ping, HasActive(rows.incidents), now)
  }

  function BeatResult(m: Monitor): PingResult {
    PingResult(true, 200, 0, None, m.tlsIssuer, m.tlsValidTo, m.tlsDaysRemaining, None, None)
  }

  // Beats for a paused monitor, or one of another type, are refused.
  function Beaten(rows: Rows, now: int): Rows {
    if !rows.monitor.isHeartbeat || !rows.monitor.isActive then rows
    else Checked(rows.(monitor := rows.monitor.(lastHeartbeatAt := Some(now))), BeatResult(rows.monitor), now)
  }

  function HeartbeatDeadline(m: Monitor): int {
    m.lastHeartbeatAt.GetOr(m.createdAt) + (m.intervalSeconds + m.gracePeriodSeconds) * 1000
  }

  predicate HeartbeatOverdue(m: Monitor, now: int) { now > HeartbeatDeadline(m) }

  // Math.round over milliseconds.
  function RoundedSeconds(ms: int): int { (ms + 500) / 1000 }

  function MissTitle(m: Monitor, now: int): Title {
    HeartbeatMissed(m.intervalSeconds + m.gracePeriodSeconds + RoundedSeconds(now - HeartbeatDeadline(m)))
  }

  // A miss that would open a second active incident violates the unique index,
  // and the whole transaction is rolled back.
  function Missed(rows: Rows, now: int): Rows {
    var m := rows.monitor;
    if UnderMaintenance(m, now) then
      if m.status.Paused? then rows
      else rows.(monitor := m.(status := Paused, lastCheckedAt := Some(now)))
    else if m.status.Down? || HasActive(rows.incidents) then rows
    else Rows(m.(status := Down, failures := m.graceThreshold, lastCheckedAt := Some(now)),
              rows.checks + [CheckRow(Down, None, None, None, Some(MissTitle(m, now)), now)],
              rows.incidents + [Incident(Open, MissTitle(m, now), now, None, None, None)])
  }

  // One item of a sweep: only active heartbeat monitors that are not DOWN and
  // are overdue.
  function Swept(rows: Rows, now: int): Rows {
    if rows.monitor.isHeartbeat && rows.monitor.isActive && !rows.monitor.status.Down? &&
       HeartbeatOverdue(rows.monitor, now)
    then Missed(rows, now) else rows
  }

  function AcknowledgedBy(rows: Rows, i: nat, user: nat, now: int): Rows {
    if i < |rows.incidents| && Active(rows.incidents[i])
    then rows.(incidents := rows.incidents[i := rows.incidents[i].(
           status := Acknowledged, acknowledgedAt := Some(now), acknowledgedBy := Some(user))])
    else rows
  }

  function ManuallyResolved(rows: Rows, i: nat, now: int): Rows {
    if i < |rows.incidents| && Active(rows.incidents[i])
    then rows.(incidents := rows.incidents[i := rows.incidents[i].(status := Resolved, resolvedAt := Some(now))])
    else rows
  }

  function PausedByUser(rows: Rows): Rows {
    rows.(monitor := rows.monitor.(isActive := false, status := Paused))
  }

  function ResumedByUser(rows: Rows): Rows {
    rows.(monitor := rows.monitor.(isActive := true, status := Up))
  }

  // ------------------------------------------------------------ The code as written

  datatype Query =
    | CreateCheck(row: CheckRow)
    | SetOutcome(status: Status, failures: nat, seen: Monitor, ping: PingResult)
    | SetMissed(failures: nat)
    | CreateIncident(title: Title)
    | ResolveActive

  datatype TxResult = Committed(rows: Rows) | UniqueViolation

  function RunQuery(rows: Rows, q: Query, now: int): TxResult {
    match q
    case CreateCheck(row) => Committed(rows.(checks := rows.checks + [row]))
    case SetOutcome(status, failures, seen, ping) =>
      Committed(rows.(monitor := rows.monitor.(
        status := status, failures := failures, lastCheckedAt := Some(now), dispatchedAt := None,
        nextCheckAt := Some(now + seen.intervalSeconds * 1000), tlsIssuer := ping.tlsIssuer,
        tlsValidTo := ping.tlsValidTo, tlsDaysRemaining := ping.tlsDaysRemaining,
        lastStatusCode := Some(ping.statusCode), lastResponseTime := Some(ping.latencyMs))))
    case SetMissed(failures) =>
      Committed(rows.(monitor := rows.monitor.(status := Down, failures := failures, lastCheckedAt := Some(now))))
    case CreateIncident(title) =>
      // Incident_one_active_per_monitor
      if HasActive(rows.incidents) then UniqueViolation
      else Committed(rows.(incidents := rows.incidents + [Incident(Open, title, now, None, None, None)]))
    case ResolveActive => Committed(rows.(incidents := ResolveAll(rows.incidents, now)))
  }

  // A transaction runs its queries in order; one violation rolls all back.
  function Transaction(rows: Rows, queries: seq<Query>, now: int): TxResult
    decreases queries
  {
    if queries == [] then Committed(rows)
    else match RunQuery(rows, queries[0], now)
         case UniqueViolation => UniqueViolation
         case Committed(next) => Transaction(next, queries[1..], now)
  }

  // The first two queries of every check and every miss always succeed.
  lemma TransactionAfterTwo(rows: Rows, q0: Query, q1: Query, rest: seq<Query>, now: int)
    requires !q0.CreateIncident? && !q1.CreateIncident?
    ensures Transaction(rows, [q0, q1] + rest, now) ==
            Transaction(RunQuery(RunQuery(rows, q0, now).rows, q1, now).rows, rest, now)
  {
    var queries := [q0, q1] + rest;
    assert queries[1..] == [q1] + rest;
    assert queries[1..][1..] == rest;
  }

  lemma TransactionOfOne(rows: Rows, q: Query, now: int)
    ensures Transaction(rows, [q], now) == RunQuery(rows, q, now)
    ensures Transaction(rows, [], now) == Committed(rows)
  {
  }

  /** Commits a check; if a concurrent result already opened an incident, the
      transaction is run again without the insert and everything else lands. */
  method LandCheck(rows: Rows, row: CheckRow, outcome: Query, opens: Option<Title>, resolves: bool, now: int)
    returns (landed: Rows)
    requires outcome.SetOutcome? && !(opens.Some? && resolves)
    ensures landed.checks == rows.checks + [row]
    ensures landed.monitor == RunQuery(rows, outcome, now).rows.monitor
    ensures landed.incidents ==
            if opens.Some? && !HasActive(rows.incidents)
            then rows.incidents + [Incident(Open, opens.value, now, None, None, None)]
            else if resolves then ResolveAll(rows.incidents, now) else rows.incidents
  {
    var queries := [CreateCheck(row), outcome];
    ghost var extra: seq<Query> := [];
    var incidentCreateIndex := -1;
    if opens.Some? {
      incidentCreateIndex := |queries|;
      extra := [CreateIncident(opens.value)];
      queries := queries + [CreateIncident(opens.value)];
    }
    if resolves {
      extra := [ResolveActive];
      queries := queries + [ResolveActive];
    }
    ghost var written := rows.(checks := rows.checks + [row], monitor := RunQuery(rows, outcome, now).rows.monitor);
    TransactionAfterTwo(rows, CreateCheck(row), outcome, extra, now);
    if extra != [] {
      TransactionOfOne(written, extra[0], now);
    }
    assert queries == [CreateCheck(row), outcome] + extra;
    var result := Transaction(rows, queries, now);
    if result.UniqueViolation? {
      TransactionAfterTwo(rows, CreateCheck(row), outcome, [], now);
      queries := queries[..incidentCreateIndex] + queries[incidentCreateIndex + 1..];
      assert queries == [CreateCheck(row), outcome] + [];
      result := Transaction(rows, queries, now);
    }
    return result.rows;
  }

  /** What the verdict on a result is, in the order of the code. */
  method Judge(seen: Monitor, ping: PingResult, now: int)
    returns (targetStatus: Status, updatedFailures: nat, newlyTriggered: bool, title: Title, recovered: bool)
    ensures targetStatus == StatusAfter(seen, ping, now) && updatedFailures == FailuresAfter(seen, ping)
    ensures newlyTriggered <==> CrossesThreshold(seen, ping, now)
    ensures newlyTriggered ==> title == CheckTitle(seen, ping)
    ensures recovered <==> Healthy(seen, ping) && (seen.status.Down? || seen.status.Degraded?)
  {
    var sslExpiringSoon := ping.tlsDaysRemaining.Some? &&
      ping.tlsDaysRemaining.value <= seen.sslWarningDays.GetOr(SSL_EXPIRY_WARNING_DAYS);
    var sslInvalid := ping.tlsValid == Some(false);
    var isSslFailing := sslExpiringSoon || sslInvalid;
    var isUnderMaintenance := UnderMaintenance(seen, now);

    targetStatus, updatedFailures := seen.status, seen.failures;
    newlyTriggered, recovered := false, false;
    title := HttpThresholdBreached(ping.statusCode);

    if ping.isUp && !isSslFailing {
      updatedFailures := 0;
      targetStatus := Up;
      recovered := seen.status.Down? || seen.status.Degraded?;
    } else {
      updatedFailures := updatedFailures + 1;
      if updatedFailures >= seen.graceThreshold {
        targetStatus := if isSslFailing && ping.isUp then Degraded else Down;
        var crossed := seen.status != targetStatus && updatedFailures == seen.graceThreshold;
        if crossed && !isUnderMaintenance {
          newlyTriggered := true;
          if isSslFailing && ping.isUp {
            title := if sslInvalid then TlsInvalid(ping.tlsError) else TlsExpiresIn(ping.tlsDaysRemaining);
          } else if ping.errorMessage.Some? && ping.errorMessage.value != "" {
            title := NodeOffline(ping.errorMessage.value);
          }
        }
      }
    }
    if isUnderMaintenance {
      targetStatus := Paused;
    }
  }

  /** The tables, keyed by monitor id. */
  class Database {
    var tables: map<nat, Rows>

    constructor (tables: map<nat, Rows>)
      ensures this.tables == tables
    {
      this.tables := tables;
    }

    // False when the monitor was deleted meanwhile: the update throws.
    method ApplyCheckResult(id: nat, seen: Monitor, ping: PingResult, activeSeen: bool, now: int)
      returns (found: bool)
      modifies this
      ensures found == (id in old(tables))
      ensures tables == if id in old(tables)
                        then old(tables)[id := CheckEffect(old(tables)[id], seen, ping, activeSeen, now)]
                        else old(tables)
    {
      if id !in tables { return false; }
      var targetStatus, updatedFailures, newlyTriggered, title, recovered := Judge(seen, ping, now);
      var row := CheckRow(if targetStatus.Degraded? then Degraded else if ping.isUp then Up else Down,
                          Some(ping.statusCode), Some(ping.latencyMs),
                          if ping.errorMessage.Some? then ping.errorMessage else ping.tlsError, None, now);
      var landed := LandCheck(tables[id], row, SetOutcome(targetStatus, updatedFailures, seen, ping),
                              if newlyTriggered then Some(title) else None, recovered && activeSeen, now);
      tables := tables[id := landed];
      return true;
    }

    method RecordHeartbeat(id: nat, now: int) returns (accepted: bool)
      modifies this
      ensures accepted == (id in old(tables) && old(tables)[id].monitor.isHeartbeat && old(tables)[id].monitor.isActive)
      ensures tables == if accepted then old(tables)[id := Beaten(old(tables)[id], now)] else old(tables)
    {
      if id !in tables || !tables[id].monitor.isHeartbeat || !tables[id].monitor.isActive { return false; }
      var monitor := tables[id].monitor;
      tables := tables[id := tables[id].(monitor := monitor.(lastHeartbeatAt := Some(now)))];
      accepted := ApplyCheckResult(id, monitor.(lastHeartbeatAt := Some(now)), BeatResult(monitor),
                                   HasActive(tables[id].incidents), now);
    }

    // False when the insert of a second active incident rolled the miss back.
    method ApplyHeartbeatMiss(id: nat, now: int) returns (ok: bool)
      requires id in tables
      modifies this
      ensures tables == old(tables)[id := Missed(old(tables)[id], now)]
      ensures !ok <==> (!UnderMaintenance(old(tables)[id].monitor, now) && !old(tables)[id].monitor.status.Down? &&
                        HasActive(old(tables)[id].incidents))
    {
      var rows := tables[id];
      var monitor := rows.monitor;
      ok := true;
      if UnderMaintenance(monitor, now) {
        if !monitor.status.Paused? {
          tables := tables[id := rows.(monitor := monitor.(status := Paused, lastCheckedAt := Some(now)))];
        }
        return;
      }
      if monitor.status.Down? { return; }
      var overdueSeconds := RoundedSeconds(now - HeartbeatDeadline(monitor));
      var title := HeartbeatMissed(monitor.intervalSeconds + monitor.gracePeriodSeconds + overdueSeconds);
      var row := CheckRow(Down, None, None, None, Some(title), now);
      var queries := [CreateCheck(row), SetMissed(monitor.graceThreshold), CreateIncident(title)];
      var outcome := Transaction(rows, queries, now);
      ghost var landed := rows.(checks := rows.checks + [row],
        monitor := monitor.(status := Down, failures := monitor.graceThreshold, lastCheckedAt := Some(now)));
      TransactionAfterTwo(rows, queries[0], queries[1], [queries[2]], now);
      assert queries == [queries[0], queries[1]] + [queries[2]];
      TransactionOfOne(landed, queries[2], now);
      if outcome.UniqueViolation? { return false; }
      tables := tables[id := outcome.rows];
    }

    /** One sweep flags exactly the overdue monitors; a failed item does not
        stop the others. */
    method SweepHeartbeats(now: int)
      modifies this
      ensures tables.Keys == old(tables).Keys
      ensures forall id :: id in tables ==> tables[id] == Swept(old(tables)[id], now)
    {
      var overdue := set id | id in tables && tables[id].monitor.isHeartbeat && tables[id].monitor.isActive &&
                              !tables[id].monitor.status.Down? && HeartbeatOverdue(tables[id].monitor, now);
      var rest := overdue;
      while rest != {}
        invariant rest <= overdue <= old(tables).Keys
        invariant tables.Keys == old(tables).Keys
        invariant forall id :: id in tables && (id !in overdue || id in rest) ==> tables[id] == old(tables)[id]
        invariant forall id :: id in overdue - rest ==> tables[id] == Missed(old(tables)[id], now)
        decreases rest
      {
        var id :| id in rest;
        var _ := ApplyHeartbeatMiss(id, now);
        rest := rest - {id};
      }
    }

    method AcknowledgeIncident(id: nat, i: nat, user: nat, now: int) returns (ok: bool)
      modifies this
      ensures ok == (id in old(tables) && i < |old(tables)[id].incidents| && Active(old(tables)[id].incidents[i]))
      ensures tables == if ok then old(tables)[id := AcknowledgedBy(old(tables)[id], i, user, now)] else old(tables)
    {
      if id !in tables || i >= |tables[id].incidents| { return false; }
      var incident := tables[id].incidents[i];
      if incident.status.Resolved? { return false; }
      var updated := incident.(
        status := Acknowledged, acknowledgedAt := Some(now), acknowledgedBy := Some(user));
      tables := tables[id := tables[id].(incidents := tables[id].incidents[i := updated])];
      return true;
    }

    method ResolveIncident(id: nat, i: nat, now: int) returns (ok: bool)
      modifies this
      ensures ok == (id in old(tables) && i < |old(tables)[id].incidents| && Active(old(tables)[id].incidents[i]))
      ensures tables == if ok then old(tables)[id := ManuallyResolved(old(tables)[id], i, now)] else old(tables)
    {
      if id !in tables || i >= |tables[id].incidents| { return false; }
      var incident := tables[id].incidents[i];
      if incident.status.Resolved? { return false; }
      var updated := incident.(status := Resolved, resolvedAt := Some(now));
      tables := tables[id := tables[id].(incidents := tables[id].incidents[i := updated])];
      return true;
    }

    method PauseMonitor(id: nat) returns (ok: bool)
      modifies this
      ensures ok == (id in old(tables))
      ensures tables == if ok then old(tables)[id := PausedByUser(old(tables)[id])] else old(tables)
    {
      if id !in tables { return false; }
      var m := tables[id].monitor;
      tables := tables[id := tables[id].(monitor := m.(isActive := false, status := Paused))];
      return true;
    }

    method ResumeMonitor(id: nat) returns (ok: bool)
      modifies this
      ensures ok == (id in old(tables))
      ensures tables == if ok then old(tables)[id := ResumedByUser(old(tables)[id])] else old(tables)
    {
      if id !in tables { return false; }
      var m := tables[id].monitor;
      tables := tables[id := tables[id].(monitor := m.(isActive := true, status := Up))];
      return true;
    }
  }
}
