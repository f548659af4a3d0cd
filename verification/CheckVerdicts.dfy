/**
 The verdict on a check, read off the fields of the result and of the monitor
 row the handler had seen: which status, counter, check row and incident each
 kind of result leads to.
 */
module CheckVerdicts {
  import opened Common
  import opened MonitorEngine

  // No complete maintenance window has `now` in it.
  predicate Outside(m: Monitor, now: int) {
    m.maintenanceStartAt.None? || m.maintenanceEndAt.None? ||
    now < m.maintenanceStartAt.value || now > m.maintenanceEndAt.value
  }

  predicate Inside(m: Monitor, now: int) {
    m.maintenanceStartAt.Some? && m.maintenanceEndAt.Some? &&
    m.maintenanceStartAt.value <= now && now <= m.maintenanceEndAt.value
  }

  // The certificate did not validate, or has as few days left as to warn: seven,
  // unless the monitor says otherwise.
  predicate BadCertificate(m: Monitor, ping: PingResult) {
    ping.tlsValid == Some(false) ||
    (ping.tlsDaysRemaining.Some? && m.sslWarningDays.None? && ping.tlsDaysRemaining.value <= 7) ||
    (ping.tlsDaysRemaining.Some? && m.sslWarningDays.Some? && ping.tlsDaysRemaining.value <= m.sslWarningDays.value)
  }

  // One row is logged, with this status; everything else in it is the result's.
  predicate Logged(before: Rows, after: Rows, status: Status, ping: PingResult, now: int) {
    && |after.checks| == |before.checks| + 1 && after.checks[..|before.checks|] == before.checks
    && var row := after.checks[|before.checks|];
       && row.status == status && row.statusCode == Some(ping.statusCode) && row.responseTimeMs == Some(ping.latencyMs)
       && row.checkedAt == now && row.missed.None?
       && (ping.errorMessage.Some? ==> row.error == ping.errorMessage)
       && (ping.errorMessage.None? ==> row.error == ping.tlsError)
  }

  /** Outside maintenance a result that is not up and reaches the threshold makes
      the monitor DOWN, and so does its check row. */
  lemma OfflineGoesDown(rows: Rows, seen: Monitor, ping: PingResult, activeSeen: bool, now: int)
    requires Outside(seen, now) && !ping.isUp && seen.failures + 1 >= seen.graceThreshold
    ensures var r := CheckEffect(rows, seen, ping, activeSeen, now);
            r.monitor.status.Down? && r.monitor.failures == seen.failures + 1 && Logged(rows, r, Down, ping, now)
  {
  }

  /** One that is up with a bad certificate makes it DEGRADED. */
  lemma BadCertificateDegrades(rows: Rows, seen: Monitor, ping: PingResult, activeSeen: bool, now: int)
    requires Outside(seen, now) && ping.isUp && BadCertificate(seen, ping)
    requires seen.failures + 1 >= seen.graceThreshold
    ensures var r := CheckEffect(rows, seen, ping, activeSeen, now);
      r.monitor.status.Degraded? && r.monitor.failures == seen.failures + 1 && Logged(rows, r, Degraded, ping, now)
  {
  }

  /** One that is up with nothing wrong makes it UP and clears the counter. */
  lemma HealthyGoesUp(rows: Rows, seen: Monitor, ping: PingResult, activeSeen: bool, now: int)
    requires Outside(seen, now) && ping.isUp && !BadCertificate(seen, ping)
    ensures var r := CheckEffect(rows, seen, ping, activeSeen, now);
            r.monitor.status.Up? && r.monitor.failures == 0 && Logged(rows, r, Up, ping, now)
  {
  }

  /** Below the threshold a failing result only counts; a row logged while the
      monitor shows DEGRADED says so too. */
  lemma BelowThresholdOnlyCounts(rows: Rows, seen: Monitor, ping: PingResult, activeSeen: bool, now: int)
    requires Outside(seen, now) && seen.failures + 1 < seen.graceThreshold
    requires !ping.isUp || BadCertificate(seen, ping)
    ensures var r := CheckEffect(rows, seen, ping, activeSeen, now);
      && r.monitor.status == seen.status && r.monitor.failures == seen.failures + 1 && r.incidents == rows.incidents
      && Logged(rows, r, if seen.status.Degraded? then Degraded else if ping.isUp then Up else Down, ping, now)
  {
  }

  /** Inside a window, its two ends included, every result leaves it PAUSED, opens
      nothing, and still counts. */
  lemma MaintenancePauses(rows: Rows, seen: Monitor, ping: PingResult, activeSeen: bool, now: int)
    requires Inside(seen, now)
    ensures var r := CheckEffect(rows, seen, ping, activeSeen, now);
      && r.monitor.status.Paused? && |r.incidents| == |rows.incidents|
      && r.monitor.failures == (if ping.isUp && !BadCertificate(seen, ping) then 0 else seen.failures + 1)
      && Logged(rows, r, if ping.isUp then Up else Down, ping, now)
  {
  }

  /** Whatever the verdict, the monitor is no longer in flight, is due one interval
      from now, shows what the result says, and keeps everything else. */
  lemma ResultIsBooked(rows: Rows, seen: Monitor, ping: PingResult, activeSeen: bool, now: int)
    ensures var m := CheckEffect(rows, seen, ping, activeSeen, now).monitor;
      && m.lastCheckedAt == Some(now) && m.dispatchedAt.None?
      && m.nextCheckAt == Some(now + 1000 * seen.intervalSeconds)
      && m.tlsIssuer == ping.tlsIssuer && m.tlsValidTo == ping.tlsValidTo
      && m.tlsDaysRemaining == ping.tlsDaysRemaining
      && m.lastStatusCode == Some(ping.statusCode) && m.lastResponseTime == Some(ping.latencyMs)
    ensures var m, old_ := CheckEffect(rows, seen, ping, activeSeen, now).monitor, rows.monitor;
      && m.graceThreshold == old_.graceThreshold && m.isActive == old_.isActive && m.isHeartbeat == old_.isHeartbeat
      && m.createdAt == old_.createdAt && m.intervalSeconds == old_.intervalSeconds
      && m.gracePeriodSeconds == old_.gracePeriodSeconds && m.lastHeartbeatAt == old_.lastHeartbeatAt
      && m.maintenanceStartAt == old_.maintenanceStartAt && m.maintenanceEndAt == old_.maintenanceEndAt
      && m.sslWarningDays == old_.sslWarningDays
  {
  }

  // ------------------------------------------------------------- Incidents

  predicate NoneActive(incidents: seq<Incident>) {
    forall i :: 0 <= i < |incidents| ==> incidents[i].status.Resolved?
  }

  // One more incident, opened now under this title.
  predicate Opens(before: seq<Incident>, after: seq<Incident>, title: Title, now: int) {
    && |after| == |before| + 1 && after[..|before|] == before
    && var i := after[|before|];
       i.status.Open? && i.startedAt == now && i.resolvedAt.None? && i.acknowledgedBy.None? && i.title == title
  }

  /** The result that reaches the threshold outside maintenance opens an incident
      if none is active, and its title says what was wrong. */
  lemma ThresholdOpensIncident(rows: Rows, seen: Monitor, ping: PingResult, activeSeen: bool, now: int)
    requires Outside(seen, now) && seen.failures + 1 == seen.graceThreshold && NoneActive(rows.incidents)
    requires if ping.isUp then BadCertificate(seen, ping) && !seen.status.Degraded? else !seen.status.Down?
    ensures var after := CheckEffect(rows, seen, ping, activeSeen, now).incidents;
      && (!ping.isUp && ping.errorMessage.Some? && ping.errorMessage.value != "" ==>
            Opens(rows.incidents, after, NodeOffline(ping.errorMessage.value), now))
      && (!ping.isUp && (ping.errorMessage.None? || ping.errorMessage.value == "") ==>
            Opens(rows.incidents, after, HttpThresholdBreached(ping.statusCode), now))
      && (ping.isUp && ping.tlsValid == Some(false) ==>
            Opens(rows.incidents, after, TlsInvalid(ping.tlsError), now))
      && (ping.isUp && ping.tlsValid != Some(false) ==>
            Opens(rows.incidents, after, TlsExpiresIn(ping.tlsDaysRemaining), now))
  {
  }

  /** Past the threshold, or with an incident active, a failing result leaves the
      incidents alone. */
  lemma OnlyTheThresholdOpens(rows: Rows, seen: Monitor, ping: PingResult, activeSeen: bool, now: int)
    requires !ping.isUp || BadCertificate(seen, ping)
    requires seen.failures + 1 != seen.graceThreshold || Inside(seen, now) ||
             (exists i :: 0 <= i < |rows.incidents| && !rows.incidents[i].status.Resolved?)
    ensures CheckEffect(rows, seen, ping, activeSeen, now).incidents == rows.incidents
  {
    if i :| 0 <= i < |rows.incidents| && !rows.incidents[i].status.Resolved? {
      assert Active(rows.incidents[i]);
    }
  }

  /** A healthy result for a monitor that shows DOWN or DEGRADED resolves every
      active incident now, and changes none that is resolved. */
  lemma RecoveryResolves(rows: Rows, seen: Monitor, ping: PingResult, now: int, i: nat)
    requires ping.isUp && !BadCertificate(seen, ping) && (seen.status.Down? || seen.status.Degraded?)
    requires i < |rows.incidents|
    ensures var after := CheckEffect(rows, seen, ping, true, now).incidents;
      && |after| == |rows.incidents|
      && after[i].status.Resolved?
      && after[i].resolvedAt == (if rows.incidents[i].status.Resolved? then rows.incidents[i].resolvedAt else Some(now))
      && after[i].startedAt == rows.incidents[i].startedAt && after[i].title == rows.incidents[i].title
  {
  }

  // ------------------------------------------------------------ Heartbeats

  /** A beat stores its time, and as a result is up, with code 200 and no latency. */
  lemma BeatIsUp(rows: Rows, now: int)
    requires rows.monitor.isHeartbeat && rows.monitor.isActive && Outside(rows.monitor, now)
    requires var m := rows.monitor; m.tlsDaysRemaining.None? || m.tlsDaysRemaining.value > m.sslWarningDays.GetOr(7)
    ensures var r := Beaten(rows, now);
      && r.monitor.lastHeartbeatAt == Some(now) && r.monitor.lastCheckedAt == Some(now)
      && r.monitor.status.Up? && r.monitor.failures == 0
      && r.monitor.lastStatusCode == Some(200) && r.monitor.lastResponseTime == Some(0)
      && |r.checks| == |rows.checks| + 1 && r.checks[|rows.checks|].status.Up?
  {
  }

  /** A miss outside maintenance with no incident active writes all three rows, and
      its title tells the seconds since the last beat, to the nearest. */
  lemma MissIsBooked(rows: Rows, now: int)
    requires Outside(rows.monitor, now) && !rows.monitor.status.Down? && NoneActive(rows.incidents)
    ensures var m, r := rows.monitor, Missed(rows, now);
      && r.monitor.status.Down? && r.monitor.failures == m.graceThreshold && r.monitor.lastCheckedAt == Some(now)
      && |r.checks| == |rows.checks| + 1 && r.checks[|rows.checks|].status.Down?
      && |r.incidents| == |rows.incidents| + 1
      && var i := r.incidents[|rows.incidents|];
         var since := now - if m.lastHeartbeatAt.Some? then m.lastHeartbeatAt.value else m.createdAt;
         && i.status.Open? && i.startedAt == now && i.resolvedAt.None?
         && i.title.HeartbeatMissed? && -500 < i.title.seconds * 1000 - since <= 500
         && r.checks[|rows.checks|].missed == Some(i.title)
  {
  }

  /** Inside maintenance a miss holds the monitor PAUSED and writes nothing else. */
  lemma MissInMaintenance(rows: Rows, now: int)
    requires Inside(rows.monitor, now)
    ensures var r := Missed(rows, now);
      r.monitor.status.Paused? && r.monitor.failures == rows.monitor.failures &&
      r.checks == rows.checks && r.incidents == rows.incidents
  {
  }

  /** A beat is refused for a monitor that is paused or of another type. */
  lemma BeatIsRefused(rows: Rows, now: int)
    requires !rows.monitor.isHeartbeat || !rows.monitor.isActive
    ensures Beaten(rows, now) == rows
  {
  }

  /** A sweep passes over what is of another type, paused, DOWN, or not overdue: no
      more than interval and grace since its last beat, or its creation. */
  lemma SweepPassesOver(rows: Rows, now: int)
    requires var m := rows.monitor;
      || !m.isHeartbeat || !m.isActive || m.status.Down?
      || now - (if m.lastHeartbeatAt.Some? then m.lastHeartbeatAt.value else m.createdAt) <=
           1000 * m.intervalSeconds + 1000 * m.gracePeriodSeconds
    ensures Swept(rows, now) == rows
  {
  }

  // ---------------------------------------------------------- User actions

  /** Pausing and resuming change status and activity, and keep the counter and all
      incidents and checks. */
  lemma PauseAndResumeKeepTheRest(rows: Rows)
    ensures var r := PausedByUser(rows);
      && r.monitor.status.Paused? && !r.monitor.isActive && r.monitor.failures == rows.monitor.failures
      && r.monitor == rows.monitor.(status := Paused, isActive := false)
      && r.incidents == rows.incidents && r.checks == rows.checks
    ensures var r := ResumedByUser(rows);
      && r.monitor.status.Up? && r.monitor.isActive && r.monitor.failures == rows.monitor.failures
      && r.monitor == rows.monitor.(status := Up, isActive := true)
      && r.incidents == rows.incidents && r.checks == rows.checks
  {
  }

  /** Acknowledging and resolving touch the one incident, and only if it is not
      resolved. */
  lemma UserActionsOnIncident(rows: Rows, i: nat, user: nat, now: int)
    requires i < |rows.incidents|
    ensures var was, acked := rows.incidents[i], AcknowledgedBy(rows, i, user, now).incidents;
      && (was.status.Resolved? ==> acked == rows.incidents)
      && (!was.status.Resolved? ==>
            acked[..i] == rows.incidents[..i] && acked[i + 1..] == rows.incidents[i + 1..] &&
            acked[i] == Incident(Acknowledged, was.title, was.startedAt, was.resolvedAt, Some(now), Some(user)))
    ensures var was, done := rows.incidents[i], ManuallyResolved(rows, i, now).incidents;
      && (was.status.Resolved? ==> done == rows.incidents)
      && (!was.status.Resolved? ==>
            done[..i] == rows.incidents[..i] && done[i + 1..] == rows.incidents[i + 1..] &&
            done[i] == Incident(Resolved, was.title, was.startedAt, Some(now), was.acknowledgedAt, was.acknowledgedBy))
    ensures AcknowledgedBy(rows, i, user, now).monitor == rows.monitor
    ensures ManuallyResolved(rows, i, now).monitor == rows.monitor
  {
  }
}
