/**
 The 30-day SLA figure: downtime as a sum of incident durations clipped to the
 window, against downtime as the set of milliseconds some incident covers.
 */
module Analytics {
  import opened Common
  import opened MonitorEngine
  import opened IncidentHistory

  const THIRTY_DAYS_MS := 30 * 24 * 60 * 60 * 1000

  ghost predicate Down(incidents: seq<Incident>, t: int) {
    exists i :: 0 <= i < |incidents| && Covers(incidents[i], t)
  }

  // Downtime itself: the milliseconds of [from, now) inside some incident.
  ghost function DownMs(incidents: seq<Incident>, from: int, now: int): set<int> {
    set t | from <= t < now && Down(incidents, t)
  }

  ghost predicate Disjoint(incidents: seq<Incident>) {
    forall i, j, t :: 0 <= i < j < |incidents| && Covers(incidents[i], t) ==> !Covers(incidents[j], t)
  }

  // The rows the query returns.
  predicate Selected(i: Incident, from: int, now: int) {
    i.startedAt < now && (i.resolvedAt.None? || i.resolvedAt.value >= from)
  }

  function ClippedStart(i: Incident, from: int): int { Max(i.startedAt, from) }

  function ClippedEnd(i: Incident, now: int): int { Min(i.resolvedAt.GetOr(now), now) }

  ghost predicate Within(lo: int, t: int, hi: int) { lo <= t < hi }

  ghost function Interval(lo: int, hi: int): set<int> { set t | lo <= t < hi && Within(lo, t, hi) }

  lemma {:induction false} IntervalSize(lo: int, hi: int)
    ensures |Interval(lo, hi)| == Max(0, hi - lo)
    decreases hi - lo
  {
    if lo < hi {
      IntervalSize(lo, hi - 1);
      assert Interval(lo, hi) == Interval(lo, hi - 1) + {hi - 1};
    } else {
      assert Interval(lo, hi) == {};
    }
  }

  // The part of an incident inside the window.
  ghost function Own(i: Incident, from: int, now: int): set<int> {
    Interval(ClippedStart(i, from), ClippedEnd(i, now))
  }

  lemma OwnIsCovered(i: Incident, from: int, now: int, t: int)
    ensures t in Own(i, from, now) <==> from <= t < now && Covers(i, t)
  {
    assert Within(ClippedStart(i, from), t, ClippedEnd(i, now)) <==> from <= t < now && Covers(i, t);
  }

  lemma DownOneMore(incidents: seq<Incident>, i: Incident, t: int)
    ensures Down(incidents + [i], t) <==> Down(incidents, t) || Covers(i, t)
  {
    if Down(incidents, t) {
      var k :| 0 <= k < |incidents| && Covers(incidents[k], t);
      assert Covers((incidents + [i])[k], t);
    }
    assert (incidents + [i])[|incidents|] == i;
  }

  // One more incident adds its clipped interval, and nothing counted before.
  lemma OneMoreIncident(incidents: seq<Incident>, n: nat, from: int, now: int)
    requires n < |incidents| && Disjoint(incidents)
    ensures |DownMs(incidents[..n + 1], from, now)| ==
            |DownMs(incidents[..n], from, now)| +
            Max(0, ClippedEnd(incidents[n], now) - ClippedStart(incidents[n], from))
  {
    var i := incidents[n];
    var before, own := DownMs(incidents[..n], from, now), Own(i, from, now);
    assert incidents[..n + 1] == incidents[..n] + [i];
    forall t ensures t in DownMs(incidents[..n + 1], from, now) <==> t in before || t in own {
      OwnIsCovered(i, from, now, t);
      DownOneMore(incidents[..n], i, t);
    }
    assert DownMs(incidents[..n + 1], from, now) == before + own;
    forall t | t in before ensures t !in own {
      OwnIsCovered(i, from, now, t);
      var k :| 0 <= k < n && Covers(incidents[..n][k], t);
      assert Covers(incidents[k], t);
    }
    assert before !! own;
    IntervalSize(ClippedStart(i, from), ClippedEnd(i, now));
  }

  lemma DowntimeFitsWindow(incidents: seq<Incident>, from: int, now: int)
    ensures |DownMs(incidents, from, now)| <= Max(0, now - from)
  {
    IntervalSize(from, now);
    var down := DownMs(incidents, from, now);
    assert Interval(from, now) == down + (Interval(from, now) - down);
  }

  // The incidents that overlap the window, each counted once.
  function Overlapping(incidents: seq<Incident>, from: int, now: int): set<nat> {
    set i: nat | i < |incidents| && incidents[i].startedAt < now &&
                 (incidents[i].resolvedAt.Some? ==> incidents[i].resolvedAt.value >= from)
  }

  lemma OverlapOneMore(incidents: seq<Incident>, n: nat, from: int, now: int)
    requires n < |incidents|
    ensures |Overlapping(incidents[..n + 1], from, now)| ==
            |Overlapping(incidents[..n], from, now)| + if Selected(incidents[n], from, now) then 1 else 0
  {
    var before := Overlapping(incidents[..n], from, now);
    assert Overlapping(incidents[..n + 1], from, now) ==
           before + if Selected(incidents[n], from, now) then {n} else {};
  }

  lemma Quotient(x: real, y: real)
    requires y > 0.0
    ensures x / y * y == x
  {
  }

  lemma UptimeIsAFraction(down: int, window: int)
    requires 0 <= down <= window && window >= 1
    ensures var uptime := (window - down) as real / window as real;
            0.0 <= uptime <= 1.0 && uptime * window as real == (window - down) as real
  {
    var uptime, w := (window - down) as real / window as real, window as real;
    Quotient((window - down) as real, w);
    assert uptime < 0.0 ==> uptime * w < 0.0;
    assert uptime > 1.0 ==> (uptime - 1.0) * w > 0.0;
  }

  /** The figures of the analytics endpoint. Downtime is exactly the number of
      milliseconds in the window with an incident active, so it never exceeds
      the window and the clamp at zero never acts. */
  method UptimeFigures(createdAt: int, incidents: seq<Incident>, now: int)
    returns (downtimeMs: int, uptime: real, outages: nat)
    requires Disjoint(incidents)
    ensures var from := Max(createdAt, now - 2_592_000_000);
            && downtimeMs == |DownMs(incidents, from, now)| <= Max(1, now - from)
            && uptime * Max(1, now - from) as real == (Max(1, now - from) - downtimeMs) as real
            && 0.0 <= uptime <= 1.0
    ensures outages == |Overlapping(incidents, Max(createdAt, now - 2_592_000_000), now)|
  {
    var windowStart := Max(createdAt, now - THIRTY_DAYS_MS);
    var totalWindow := Max(1, now - windowStart);
    downtimeMs, outages := 0, 0;
    for n := 0 to |incidents|
      invariant downtimeMs == |DownMs(incidents[..n], windowStart, now)|
      invariant outages == |Overlapping(incidents[..n], windowStart, now)|
    {
      OneMoreIncident(incidents, n, windowStart, now);
      OverlapOneMore(incidents, n, windowStart, now);
      if Selected(incidents[n], windowStart, now) {
        var start := Max(incidents[n].startedAt, windowStart);
        var end := Min(if incidents[n].resolvedAt.Some? then incidents[n].resolvedAt.value else now, now);
        downtimeMs := downtimeMs + Max(0, end - start);
        outages := outages + 1;
      }
    }
    assert incidents[..|incidents|] == incidents;
    DowntimeFitsWindow(incidents, windowStart, now);
    UptimeIsAFraction(downtimeMs, totalWindow);
    uptime := (totalWindow - downtimeMs) as real / totalWindow as real;
    if uptime < 0.0 { uptime := 0.0; }
  }

  /** The engine only ever produces incidents the figures are exact for. */
  lemma EngineIncidentsAreDisjoint(monitor: Monitor, events: seq<Timed>, start: int)
    requires Chronological(start, events)
    ensures Disjoint(Run(Rows(monitor, [], []), events).incidents)
  {
    IncidentsNeverOverlap(monitor, events, start);
  }
}
