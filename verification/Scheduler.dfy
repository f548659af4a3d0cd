/**
 Dispatching due monitors: one UPDATE selects and claims them, a failed send
 releases them. The two claim columns stand for the whole history of claims and
 results of a monitor.
 */
module Scheduler {
  import opened Common
  import opened MonitorEngine

  const DISPATCH_STALE_AFTER_MS := 5 * 60 * 1000

  // The WHERE clause; a comparison with NULL is not true.
  predicate Due(m: Monitor, now: int) {
    && m.isActive
    && !m.isHeartbeat
    && (m.nextCheckAt.None? || m.nextCheckAt.value <= now)
    && (m.dispatchedAt.None? || m.dispatchedAt.value < now - DISPATCH_STALE_AFTER_MS)
    && (!m.status.Paused? || UnderMaintenance(m, now))
  }

  function Interval(m: Monitor): nat { m.intervalSeconds * 1000 }

  function Claimed(m: Monitor, now: int): Monitor {
    m.(dispatchedAt := Some(now), nextCheckAt := Some(now + Interval(m)))
  }

  function Released(m: Monitor, now: int): Monitor {
    m.(dispatchedAt := None, nextCheckAt := Some(now))
  }

  class DispatchScheduler {
    const database: Database
    var lastSuccessfulDispatchAt: Option<int>

    constructor (database: Database)
      ensures this.database == database && lastSuccessfulDispatchAt.None?
    {
      this.database := database;
      lastSuccessfulDispatchAt := None;
    }

    // UPDATE ... WHERE id IN (SELECT ...) RETURNING
    method ClaimDue(now: int) returns (claimed: set<nat>)
      modifies database
      ensures claimed == set id | id in old(database.tables) && Due(old(database.tables)[id].monitor, now)
      ensures database.tables.Keys == old(database.tables).Keys
      ensures forall id :: id in database.tables ==>
                database.tables[id] ==
                var rows := old(database.tables)[id];
                if id in claimed then rows.(monitor := Claimed(rows.monitor, now)) else rows
    {
      var tables := database.tables;
      claimed := set id | id in tables && Due(tables[id].monitor, now);
      database.tables := map id | id in tables ::
        if id in claimed then tables[id].(monitor := Claimed(tables[id].monitor, now)) else tables[id];
    }

    method Release(claimed: set<nat>, at: int)
      modifies database
      ensures database.tables.Keys == old(database.tables).Keys
      ensures forall id :: id in database.tables ==>
                database.tables[id] ==
                var rows := old(database.tables)[id];
                if id in claimed then rows.(monitor := Released(rows.monitor, at)) else rows
    {
      var tables := database.tables;
      database.tables := map id | id in tables ::
        if id in claimed then tables[id].(monitor := Released(tables[id].monitor, at)) else tables[id];
    }

    /** One tick at `now`. `sent` is whether Kafka took the messages; if not, the
        tick fails, and the claims are released at `later` if the database takes
        the update: an error of the release itself is swallowed. Inactive and
        heartbeat monitors are never claimed, and their rows never touched. */
    method DispatchDueMonitors(now: int, sent: bool, later: int, releases: bool) returns (claimed: set<nat>, ok: bool)
      modifies this, database
      ensures claimed == set id | id in old(database.tables) && Due(old(database.tables)[id].monitor, now)
      ensures database.tables.Keys == old(database.tables).Keys
      ensures forall id :: id in database.tables ==>
                database.tables[id] ==
                var rows := old(database.tables)[id];
                if id !in claimed then rows
                else if sent || !releases then rows.(monitor := Claimed(rows.monitor, now))
                else rows.(monitor := Released(Claimed(rows.monitor, now), later))
      ensures forall id :: id in claimed ==>
                old(database.tables)[id].monitor.isActive && !old(database.tables)[id].monitor.isHeartbeat
      ensures ok == (sent || claimed == {})
      ensures lastSuccessfulDispatchAt == if ok then Some(later) else old(lastSuccessfulDispatchAt)
    {
      claimed := ClaimDue(now);
      ok := sent || claimed == {};
      if ok {
        lastSuccessfulDispatchAt := Some(later);
      } else if releases {
        Release(claimed, later);
      }
    }
  }

  // ------------------------------------------- Columns against history

  // Ticks of any number of replicas, results landing, failed sends releasing.
  datatype Event = Tick(at: int) | Result(ping: PingResult, at: int) | Release(at: int)

  datatype Happening = Claim(at: int) | Answer(at: int) | Undo(at: int)

  datatype Tracked = Tracked(monitor: Monitor, history: seq<Happening>)

  function Step(s: Tracked, e: Event): Tracked {
    match e
    case Tick(t) =>
      if Due(s.monitor, t) then Tracked(Claimed(s.monitor, t), s.history + [Claim(t)]) else s
    case Result(ping, t) =>
      Tracked(MonitorAfter(s.monitor, s.monitor, ping, t), s.history + [Answer(t)])
    case Release(t) => Tracked(Released(s.monitor, t), s.history + [Undo(t)])
  }

  function Run(s: Tracked, events: seq<Event>): Tracked {
    if events == [] then s else Step(Run(s, events[..|events| - 1]), events[|events| - 1])
  }

  predicate Chronological(events: seq<Event>) {
    forall i, j :: 0 <= i <= j < |events| ==> events[i].at <= events[j].at
  }

  // Never checked; of any type, active or not, with any maintenance window.
  predicate NewlyScheduled(m: Monitor) {
    !m.status.Paused? && m.dispatchedAt.None? && m.nextCheckAt.None?
  }

  // When the monitor becomes due again after h.
  function DueAfter(h: Happening, interval: nat): int { if h.Undo? then h.at else h.at + interval }

  predicate Summarises(m: Monitor, history: seq<Happening>, interval: nat) {
    if history == [] then m.nextCheckAt.None? && m.dispatchedAt.None?
    else
      var last := history[|history| - 1];
      && m.nextCheckAt == Some(DueAfter(last, interval))
      && m.dispatchedAt == if last.Claim? then Some(last.at) else None
  }

  // When a tick should claim, said of the history alone.
  predicate ShouldClaim(history: seq<Happening>, interval: nat, t: int) {
    history == [] ||
    var last := history[|history| - 1];
    t >= DueAfter(last, interval) && (last.Claim? ==> t > last.at + DISPATCH_STALE_AFTER_MS)
  }

  // The failure counter, from the results alone.
  function Failures(m: Monitor, events: seq<Event>): nat {
    if events == [] then m.failures
    else
      var front, last := events[..|events| - 1], events[|events| - 1];
      if !last.Result? then Failures(m, front)
      else if Healthy(m, last.ping) then 0
      else Failures(m, front) + 1
  }

  // PAUSED by the maintenance window: the last result landed inside it, or is a
  // failure below the threshold and the monitor was held before.
  predicate HeldPaused(m: Monitor, events: seq<Event>) {
    events != [] &&
    var front, last := events[..|events| - 1], events[|events| - 1];
    if !last.Result? then HeldPaused(m, front)
    else
      UnderMaintenance(m, last.at) ||
      (!Healthy(m, last.ping) && Failures(m, front) + 1 < m.graceThreshold && HeldPaused(m, front))
  }

  predicate Spaced(history: seq<Happening>, interval: nat) {
    && (forall i, j :: 0 <= i < j < |history| ==> history[i].at <= history[j].at)
    && (forall j :: 0 < j < |history| && history[j].Claim? ==> DueAfter(history[j - 1], interval) <= history[j].at)
  }

  predicate SameSchedule(a: Monitor, b: Monitor) {
    && a.isActive == b.isActive && a.isHeartbeat == b.isHeartbeat && a.intervalSeconds == b.intervalSeconds
    && a.graceThreshold == b.graceThreshold && a.sslWarningDays == b.sslWarningDays
    && a.maintenanceStartAt == b.maintenanceStartAt && a.maintenanceEndAt == b.maintenanceEndAt
  }

  lemma StepKeepsSchedule(s: Tracked, e: Event)
    ensures SameSchedule(Step(s, e).monitor, s.monitor)
    ensures Step(s, e).monitor.failures ==
            if !e.Result? then s.monitor.failures else FailuresAfter(s.monitor, e.ping)
    ensures Step(s, e).monitor.status == if !e.Result? then s.monitor.status else StatusAfter(s.monitor, e.ping, e.at)
  {
  }

  lemma {:induction false} StatusState(m: Monitor, events: seq<Event>)
    requires NewlyScheduled(m)
    ensures var s := Run(Tracked(m, []), events);
      && SameSchedule(s.monitor, m)
      && s.monitor.failures == Failures(m, events)
      && (s.monitor.status.Paused? <==> HeldPaused(m, events))
  {
    if events == [] {
    } else {
      StatusState(m, events[..|events| - 1]);
      StepKeepsSchedule(Run(Tracked(m, []), events[..|events| - 1]), events[|events| - 1]);
    }
  }

  lemma StepKeepsSummary(s: Tracked, e: Event, interval: nat)
    requires Summarises(s.monitor, s.history, interval) && interval == Interval(s.monitor)
    ensures Summarises(Step(s, e).monitor, Step(s, e).history, interval)
  {
  }

  lemma SpacedOneMore(history: seq<Happening>, h: Happening, interval: nat)
    requires Spaced(history, interval)
    requires history != [] ==> history[|history| - 1].at <= h.at
    requires history != [] && h.Claim? ==> DueAfter(history[|history| - 1], interval) <= h.at
    ensures Spaced(history + [h], interval)
  {
    var last := |history| - 1;
    forall i | 0 <= i <= last ensures history[i].at <= h.at {
      assert history[i].at <= history[last].at;
    }
  }

  lemma StepKeepsColumns(s: Tracked, e: Event, interval: nat)
    requires Summarises(s.monitor, s.history, interval) && Spaced(s.history, interval)
    requires interval == Interval(s.monitor) && (s.history != [] ==> s.history[|s.history| - 1].at <= e.at)
    ensures Summarises(Step(s, e).monitor, Step(s, e).history, interval) && Spaced(Step(s, e).history, interval)
  {
    StepKeepsSummary(s, e, interval);
    if |Step(s, e).history| > |s.history| {
      SpacedOneMore(s.history, Step(s, e).history[|s.history|], interval);
    }
  }

  lemma {:induction false} HistoryEnds(m: Monitor, events: seq<Event>)
    requires Chronological(events)
    ensures var h := Run(Tracked(m, []), events).history;
            h != [] ==> events != [] && h[|h| - 1].at <= events[|events| - 1].at
  {
    if events == [] {
    } else {
      var n := |events| - 1;
      assert Chronological(events[..n]) && (n > 0 ==> events[n - 1].at <= events[n].at);
      HistoryEnds(m, events[..n]);
    }
  }

  lemma {:induction false} HistoryState(m: Monitor, events: seq<Event>)
    requires NewlyScheduled(m) && Chronological(events)
    ensures var s := Run(Tracked(m, []), events);
            Summarises(s.monitor, s.history, Interval(m)) && Spaced(s.history, Interval(m))
  {
    if events == [] {
    } else {
      var front, last := events[..|events| - 1], events[|events| - 1];
      var before := Run(Tracked(m, []), front);
      assert Chronological(front) && (front != [] ==> front[|front| - 1].at <= last.at);
      HistoryState(m, front);
      HistoryEnds(m, front);
      StatusState(m, front);
      StepKeepsColumns(before, last, Interval(m));
    }
  }

  /** For any maintenance window and any failed sends: nextCheckAt is the latest
      claim or result plus the interval, or the latest release; dispatchedAt is
      the last claim exactly while nothing followed it. And a tick claims the
      monitor if and only if it is active and no heartbeat monitor, that time has
      come, an unanswered claim is more than five minutes old, and the monitor is
      not held PAUSED outside its window. */
  lemma ColumnsStandForHistory(m: Monitor, events: seq<Event>, t: int)
    requires NewlyScheduled(m) && Chronological(events)
    ensures var s := Run(Tracked(m, []), events);
      && Summarises(s.monitor, s.history, Interval(m))
      && (Due(s.monitor, t) <==>
            m.isActive && !m.isHeartbeat &&
            ShouldClaim(s.history, Interval(m), t) && (HeldPaused(m, events) ==> UnderMaintenance(m, t)))
  {
    HistoryState(m, events);
    StatusState(m, events);
  }

  /** From any state and over every run, a monitor that is inactive or waits for
      heartbeats is never claimed. */
  lemma {:induction false} OthersAreNeverClaimed(s: Tracked, events: seq<Event>)
    requires !s.monitor.isActive || s.monitor.isHeartbeat
    ensures var t := Run(s, events);
      && t.monitor.isActive == s.monitor.isActive && t.monitor.isHeartbeat == s.monitor.isHeartbeat
      && |s.history| <= |t.history| && t.history[..|s.history|] == s.history
      && forall i :: |s.history| <= i < |t.history| ==> !t.history[i].Claim?
  {
    if events == [] {
    } else {
      OthersAreNeverClaimed(s, events[..|events| - 1]);
    }
  }

  // No complete maintenance window has t in it.
  predicate OutsideWindow(m: Monitor, t: int) {
    m.maintenanceStartAt.None? || m.maintenanceEndAt.None? ||
    t < m.maintenanceStartAt.value || t > m.maintenanceEndAt.value
  }

  // Unanswered for five minutes or less.
  predicate InFlight(m: Monitor, t: int) { m.dispatchedAt.Some? && t - m.dispatchedAt.value <= 300_000 }

  predicate NotYet(m: Monitor, t: int) { m.nextCheckAt.Some? && t < m.nextCheckAt.value }

  /** What keeps a tick from claiming, said of the columns of the row. */
  lemma NotDueIff(m: Monitor, t: int)
    ensures !Due(m, t) <==>
            !m.isActive || m.isHeartbeat || NotYet(m, t) || InFlight(m, t) || (m.status.Paused? && OutsideWindow(m, t))
  {
  }

  /** However many replicas tick without the lock, a claim that does not directly
      follow a release is at least one interval after every earlier claim. */
  lemma ClaimsAreAnIntervalApart(m: Monitor, events: seq<Event>, i: nat, j: nat)
    requires NewlyScheduled(m) && Chronological(events)
    requires i < j < |Run(Tracked(m, []), events).history|
    requires var h := Run(Tracked(m, []), events).history; h[i].Claim? && h[j].Claim? && !h[j - 1].Undo?
    ensures var h := Run(Tracked(m, []), events).history; h[j].at - h[i].at >= Interval(m)
  {
    HistoryState(m, events);
    var h := Run(Tracked(m, []), events).history;
    assert i < j - 1 ==> h[i].at <= h[j - 1].at;
  }

  /** A failed send delays nothing: a released row is claimable again from the
      release on, if and only if a paused one is then still in maintenance. */
  lemma ReleasedIsClaimableAgain(m: Monitor, claimedAt: int, releasedAt: int, t: int)
    requires Due(m, claimedAt)
    ensures Due(Released(Claimed(m, claimedAt), releasedAt), t) <==>
            t >= releasedAt && (!m.status.Paused? || UnderMaintenance(m, t))
  {
  }

  // Every result among the later events fails with the counter below the threshold.
  predicate NoneEndsHold(m: Monitor, held: seq<Event>, later: seq<Event>) {
    forall i :: 0 <= i < |later| && later[i].Result? ==>
      !Healthy(m, later[i].ping) && Failures(m, held + later[..i]) + 1 < m.graceThreshold
  }

  lemma HoldsOneMore(m: Monitor, held: seq<Event>, later: seq<Event>)
    requires later != []
    ensures var n := |later| - 1;
            NoneEndsHold(m, held, later) <==>
            NoneEndsHold(m, held, later[..n]) &&
            (later[n].Result? ==>
               !Healthy(m, later[n].ping) && Failures(m, held + later[..n]) + 1 < m.graceThreshold)
  {
    var n := |later| - 1;
    assert forall i :: 0 <= i < n ==> later[..n][..i] == later[..i] && later[..n][i] == later[i];
  }

  lemma {:induction false} HoldLasts(m: Monitor, held: seq<Event>, later: seq<Event>)
    requires HeldPaused(m, held) && m.maintenanceEndAt.Some?
    requires forall i :: 0 <= i < |later| ==> later[i].at > m.maintenanceEndAt.value
    ensures HeldPaused(m, held + later) <==> NoneEndsHold(m, held, later)
  {
    if later == [] {
      assert held + later == held;
    } else {
      var n := |later| - 1;
      HoldLasts(m, held, later[..n]);
      HoldsOneMore(m, held, later);
      assert (held + later)[..|held + later| - 1] == held + later[..n];
    }
  }

  /** After a maintenance window that left the monitor PAUSED, a tick claims it
      when its time has come if and only if a result has landed since that is
      healthy or reaches the threshold. Failures below the threshold keep it
      PAUSED, and so do ticks and releases, however many there are. */
  lemma ChecksResumeIff(m: Monitor, held: seq<Event>, later: seq<Event>, t: int)
    requires NewlyScheduled(m) && Chronological(held + later) && HeldPaused(m, held) && m.maintenanceEndAt.Some?
    requires t > m.maintenanceEndAt.value
    requires forall i :: 0 <= i < |later| ==> later[i].at > m.maintenanceEndAt.value
    ensures var s := Run(Tracked(m, []), held + later);
      Due(s.monitor, t) <==>
        m.isActive && !m.isHeartbeat && ShouldClaim(s.history, Interval(m), t) && !NoneEndsHold(m, held, later)
  {
    ColumnsStandForHistory(m, held + later, t);
    HoldLasts(m, held, later);
  }

  /** In particular a check inside the window leaves any monitor PAUSED, and no
      number of ticks after the window changes that. */
  lemma {:induction false} NoTickAfterMaintenance(m: Monitor, ping: PingResult, at: int, ticks: seq<Event>)
    requires UnderMaintenance(m, at)
    requires forall i :: 0 <= i < |ticks| ==> ticks[i].Tick? && ticks[i].at > m.maintenanceEndAt.value
    ensures var s := Tracked(MonitorAfter(m, m, ping, at), [Answer(at)]);
            Run(s, ticks) == s && s.monitor.status.Paused?
  {
    if ticks == [] {
    } else {
      NoTickAfterMaintenance(m, ping, at, ticks[..|ticks| - 1]);
    }
  }
}
