/**
 The circuit breaker against its history: what the stored counter, deadline and
 timestamps say about the sends made so far, and when a send is made at all.
 Whether an event led to a send is read off the record of sends.
 */
module BreakerHistory {
  import opened Common
  import opened CircuitBreaker

  // The last event was sent directly, or as a retry.
  predicate SentNow(c: Channel, events: seq<Timed>) {
    events != [] && |Run(c, events).sent| > |Run(c, events[..|events| - 1]).sent|
  }

  predicate RetriedNow(c: Channel, events: seq<Timed>) {
    events != [] && Run(c, events).retried > Run(c, events[..|events| - 1]).retried
  }

  // The last event was delivered: a send, a retry or a test.
  predicate DeliveredNow(c: Channel, events: seq<Timed>) {
    events != [] &&
    match events[|events| - 1].event
    case Dispatch(ok) => ok && SentNow(c, events)
    case Retry(_, ok) => ok && RetriedNow(c, events)
    case Test(ok) => ok
    case Edit(_) => false
  }

  predicate EditedNow(events: seq<Timed>) { events != [] && events[|events| - 1].event.Edit? }

  // Failed direct sends since the last delivery or edit.
  function Streak(c: Channel, events: seq<Timed>): nat {
    if events == [] || DeliveredNow(c, events) || EditedNow(events) then 0
    else Streak(c, events[..|events| - 1]) + if SentNow(c, events) then 1 else 0
  }

  function LastDelivery(c: Channel, events: seq<Timed>): Option<int> {
    if events == [] then c.lastDeliveredAt
    else if DeliveredNow(c, events) then Some(events[|events| - 1].at)
    else LastDelivery(c, events[..|events| - 1])
  }

  // As the last edit that says so left it.
  predicate SwitchedOn(c: Channel, events: seq<Timed>) {
    if events == [] then c.isActive
    else
      var last := events[|events| - 1].event;
      if last.Edit? && last.isActive.Some? then last.isActive.value
      else SwitchedOn(c, events[..|events| - 1])
  }

  // Retry jobs: one for each failed direct send that is not the tenth or later.
  function Queued(c: Channel, events: seq<Timed>): nat {
    if events == [] then 0
    else Queued(c, events[..|events| - 1]) +
         if SentNow(c, events) && !DeliveredNow(c, events) && Streak(c, events) < 10 then 1 else 0
  }

  predicate InHistory(c: Channel, events: seq<Timed>, s: Channel) {
    && s.failureCount == Streak(c, events)
    && (if Streak(c, events) < 10 then s.disabledUntil.None?
        else s.sent != [] && s.disabledUntil == Some(s.sent[|s.sent| - 1] + 3_600_000))
    && s.lastDeliveredAt == LastDelivery(c, events)
    && s.isActive == SwitchedOn(c, events)
    && |s.jobs| == Queued(c, events)
  }

  lemma DispatchKeepsHistory(c: Channel, events: seq<Timed>)
    requires events != [] && events[|events| - 1].event.Dispatch?
    requires InHistory(c, events[..|events| - 1], Run(c, events[..|events| - 1]))
    ensures InHistory(c, events, Run(c, events))
  {
  }

  lemma RetryKeepsHistory(c: Channel, events: seq<Timed>)
    requires events != [] && events[|events| - 1].event.Retry?
    requires InHistory(c, events[..|events| - 1], Run(c, events[..|events| - 1]))
    ensures InHistory(c, events, Run(c, events))
  {
    assert Run(c, events).sent == Run(c, events[..|events| - 1]).sent;
  }

  lemma EditAndTestKeepHistory(c: Channel, events: seq<Timed>)
    requires events != [] && (events[|events| - 1].event.Edit? || events[|events| - 1].event.Test?)
    requires InHistory(c, events[..|events| - 1], Run(c, events[..|events| - 1]))
    ensures InHistory(c, events, Run(c, events))
  {
  }

  /** In every run from a clean channel: the counter is the number of failed direct
      sends since the last delivery or edit; from the tenth on, and only then, the
      channel is benched until one hour after its last send; it was last delivered
      to when the record says, and one retry job is queued for each failed send
      that did not trip the breaker. */
  lemma {:induction false} ChannelTellsItsHistory(c: Channel, events: seq<Timed>)
    requires Clean(c)
    ensures InHistory(c, events, Run(c, events))
  {
    if events == [] {
    } else {
      ChannelTellsItsHistory(c, events[..|events| - 1]);
      match events[|events| - 1].event
      case Dispatch(_) => DispatchKeepsHistory(c, events);
      case Retry(_, _) => RetryKeepsHistory(c, events);
      case Edit(_) | Test(_) => EditAndTestKeepHistory(c, events);
    }
  }

  /** Right after a delivery or an edit the breaker is closed and the counter 0. */
  lemma DeliveryAndEditClose(c: Channel, events: seq<Timed>)
    requires Clean(c) && (DeliveredNow(c, events) || EditedNow(events))
    ensures Run(c, events).failureCount == 0 && Run(c, events).disabledUntil.None?
  {
    ChannelTellsItsHistory(c, events);
  }

  // Ten failures in a row, and less than an hour since the last.
  predicate Resting(c: Channel, events: seq<Timed>, at: int) {
    Streak(c, events) >= 10 && Run(c, events).sent != [] &&
    at < Run(c, events).sent[|Run(c, events).sent| - 1] + 3_600_000
  }

  /** A notification is sent exactly when the channel is switched on and not
      resting, and then once, now. */
  lemma SendsIff(c: Channel, events: seq<Timed>, ok: bool, at: int)
    requires Clean(c)
    ensures var s := Run(c, events);
            Run(c, events + [Timed(Dispatch(ok), at)]).sent ==
            if SwitchedOn(c, events) && !Resting(c, events, at) then s.sent + [at] else s.sent
  {
    ChannelTellsItsHistory(c, events);
    RunOneMore(c, events, Timed(Dispatch(ok), at));
  }

  /** A retry is sent exactly when its job is not finished, and the channel is
      switched on and not resting. It uses up one attempt; delivery, the fifth
      attempt, and a retry that is not sent finish the job. Other jobs, and direct
      sends, are not touched. */
  lemma RetriesIff(c: Channel, events: seq<Timed>, j: nat, ok: bool, at: int)
    requires Clean(c) && j < |Run(c, events).jobs| && !Run(c, events).jobs[j].finished
    ensures var s, t := Run(c, events), Run(c, events + [Timed(Retry(j, ok), at)]);
      var sends := SwitchedOn(c, events) && !Resting(c, events, at);
      && t.retried == s.retried + (if sends then 1 else 0)
      && t.sent == s.sent && |t.jobs| == |s.jobs|
      && t.jobs[j].attempts == s.jobs[j].attempts + (if sends then 1 else 0)
      && (t.jobs[j].finished <==> !sends || ok || t.jobs[j].attempts >= 5)
      && forall k :: 0 <= k < |s.jobs| && k != j ==> t.jobs[k] == s.jobs[k]
  {
    ChannelTellsItsHistory(c, events);
    RunOneMore(c, events, Timed(Retry(j, ok), at));
  }
}
