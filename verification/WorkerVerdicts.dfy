/**
 What the ping engine's pool does to the verdicts, beside the targets: every
 verdict a probe ends with is in exactly one place, what can be encoded reaches
 the writer as it was, and what cannot is all that is ever dropped. And what it
 does to its input: targets are accepted in the order they are read.
 */
module WorkerVerdicts {
  import opened WorkerPool

  // ------------------------------------------------------------- Verdicts

  // A probe ends with verdict r.
  predicate EndsWith(s: Engine, step: Step, r: Result) {
    step.FinishProbe? && step.worker < |s.workers| && s.workers[step.worker].Probing? &&
    r.targetId == s.workers[step.worker].target.id &&
    r.workspaceId == s.workers[step.worker].target.workspaceId &&
    r.isUp == step.isUp && r.encodable == step.encodable
  }

  // How many probes of the run end with verdict r.
  function Verdicts(s: Engine, steps: seq<Step>, r: Result): nat
    requires Executable(s, steps)
    decreases steps
  {
    if steps == [] then 0
    else One(EndsWith(s, steps[0], r)) + Verdicts(Next(s, steps[0]), steps[1..], r)
  }

  function Count(rs: seq<Result>, r: Result): nat { multiset(rs)[r] }

  function CountHanded(batches: seq<seq<Result>>, r: Result): nat {
    if batches == [] then 0
    else CountHanded(batches[..|batches| - 1], r) + Count(batches[|batches| - 1], r)
  }

  function Delivers(w: Worker, r: Result): nat { One(w.Delivering? && w.result == r) }

  function CountDelivering(workers: seq<Worker>, r: Result): nat {
    if workers == [] then 0
    else CountDelivering(workers[..|workers| - 1], r) + Delivers(workers[|workers| - 1], r)
  }

  // How often verdict r sits in one of the places a verdict can be.
  function Places(s: Engine, r: Result): nat {
    CountDelivering(s.workers, r) + Count(s.resultChan, r) + Count(Batch(s.publisher), r) +
    CountHanded(s.handed, r) + Count(s.unencodable, r)
  }

  lemma CountAppend(rs: seq<Result>, q: Result, r: Result)
    ensures Count(rs + [q], r) == Count(rs, r) + One(q == r)
  {
  }

  lemma CountHead(rs: seq<Result>, r: Result)
    requires rs != []
    ensures Count(rs, r) == One(rs[0] == r) + Count(rs[1..], r)
  {
    assert rs == [rs[0]] + rs[1..];
  }

  lemma {:induction false} DeliveringUpdate(workers: seq<Worker>, i: nat, w: Worker, r: Result)
    requires i < |workers|
    ensures CountDelivering(workers[i := w], r) + Delivers(workers[i], r) ==
            CountDelivering(workers, r) + Delivers(w, r)
  {
    var last := |workers| - 1;
    if i == last {
      assert workers[i := w][..last] == workers[..last];
    } else {
      DeliveringUpdate(workers[..last], i, w, r);
      assert workers[i := w][..last] == workers[..last][i := w];
    }
  }

  lemma {:induction false} NobodyDelivers(workers: seq<Worker>, r: Result)
    requires forall w :: 0 <= w < |workers| ==> !workers[w].Delivering?
    ensures CountDelivering(workers, r) == 0
  {
    if workers == [] {
    } else {
      NobodyDelivers(workers[..|workers| - 1], r);
    }
  }

  lemma WorkerKeepsPlaces(s: Engine, step: Step, r: Result)
    requires Enabled(s, step)
    requires step.TakeTarget? || step.FinishProbe? || step.DeliverResult? || step.ExitWorker?
    ensures Places(NextWorker(s, step), r) == Places(s, r) + One(EndsWith(s, step, r))
  {
    var t := NextWorker(s, step);
    var w := step.worker;
    DeliveringUpdate(s.workers, w, t.workers[w], r);
    assert t.workers == s.workers[w := t.workers[w]];
    if step.DeliverResult? {
      CountAppend(s.resultChan, s.workers[w].result, r);
    }
  }

  lemma AppendKeepsPlaces(s: Engine, batch: seq<Result>, r: Result)
    requires s.resultChan != [] && batch == Batch(s.publisher)
    ensures Places(Append(s.(resultChan := s.resultChan[1..]), batch, s.resultChan[0]), r) == Places(s, r)
  {
    CountHead(s.resultChan, r);
    CountAppend(batch, s.resultChan[0], r);
    CountAppend(s.unencodable, s.resultChan[0], r);
  }

  lemma EmptiedKeepsPlaces(s: Engine, next: Publisher, handed: seq<seq<Result>>, r: Result)
    requires Batch(next) == []
    requires CountHanded(handed, r) == CountHanded(s.handed, r) + Count(Batch(s.publisher), r)
    ensures Places(s.(publisher := next, handed := handed), r) == Places(s, r)
  {
  }

  lemma FlushKeepsPlaces(s: Engine, r: Result)
    requires Enabled(s, Flush)
    ensures Places(NextPublisher(s, Flush), r) == Places(s, r)
  {
    var batch := s.publisher.batch;
    var next := if s.publisher.channelClosed then Finished else Waiting;
    assert (s.handed + [batch])[..|s.handed|] == s.handed;
    EmptiedKeepsPlaces(s, next, if batch == [] then s.handed else s.handed + [batch], r);
  }

  lemma StepKeepsPlaces(s: Engine, step: Step, r: Result)
    requires Enabled(s, step)
    ensures Places(Next(s, step), r) == Places(s, r) + One(EndsWith(s, step, r))
  {
    match step
    case TakeTarget(_) | FinishProbe(_, _, _) | DeliverResult(_) | ExitWorker(_) => WorkerKeepsPlaces(s, step, r);
    case FirstResult | AnotherResult =>
      AppendKeepsPlaces(s, Batch(s.publisher), r);
    case Flush => FlushKeepsPlaces(s, r);
    case _ => OtherStepsKeepPlaces(s, step, r);
  }

  lemma OtherStepsKeepPlaces(s: Engine, step: Step, r: Result)
    requires Enabled(s, step) && (!MovesWork(step) || step.OfferTarget?)
    ensures Places(Next(s, step), r) == Places(s, r)
  {
    if !MovesWork(step) {
      OtherStepsKeepBooks(s, step);
    }
  }

  lemma {:induction false} RunKeepsPlaces(s: Engine, steps: seq<Step>, r: Result)
    requires Executable(s, steps)
    ensures Places(Exec(s, steps), r) == Places(s, r) + Verdicts(s, steps, r)
    decreases steps
  {
    if steps == [] {
    } else {
      StepKeepsPlaces(s, steps[0], r);
      RunKeepsPlaces(Next(s, steps[0]), steps[1..], r);
    }
  }

  // ------------------------------------------------- What may be dropped

  predicate AllEncodable(rs: seq<Result>) { forall i :: 0 <= i < |rs| ==> rs[i].encodable }

  // Only what cannot be encoded is dropped, and only what can is handed over.
  predicate Sorted(s: Engine) {
    && (forall i :: 0 <= i < |s.unencodable| ==> !s.unencodable[i].encodable)
    && AllEncodable(Batch(s.publisher))
    && (forall b :: 0 <= b < |s.handed| ==> AllEncodable(s.handed[b]))
  }

  lemma StepKeepsSorted(s: Engine, step: Step)
    requires Enabled(s, step) && Sorted(s)
    ensures Sorted(Next(s, step))
  {
    match step
    case FirstResult | AnotherResult | SeeResultsClosed | TimerFires | BatchFull | Flush =>
      PublisherKeepsSorted(s, step);
    case TakeTarget(_) | FinishProbe(_, _, _) | DeliverResult(_) | ExitWorker(_) =>
    case _ =>
  }

  lemma AppendKeepsSorted(s: Engine, batch: seq<Result>, result: Result)
    requires Sorted(s) && AllEncodable(batch)
    ensures Sorted(Append(s, batch, result))
  {
  }

  lemma PublisherKeepsSorted(s: Engine, step: Step)
    requires Enabled(s, step) && Sorted(s)
    requires step.FirstResult? || step.AnotherResult? || step.SeeResultsClosed? ||
             step.TimerFires? || step.BatchFull? || step.Flush?
    ensures Sorted(NextPublisher(s, step))
  {
    if step.FirstResult? || step.AnotherResult? {
      AppendKeepsSorted(s.(resultChan := s.resultChan[1..]), Batch(s.publisher), s.resultChan[0]);
    }
  }

  lemma {:induction false} RunKeepsSorted(s: Engine, steps: seq<Step>)
    requires Executable(s, steps) && Sorted(s)
    ensures Sorted(Exec(s, steps))
    decreases steps
  {
    if steps == [] {
    } else {
      StepKeepsSorted(s, steps[0]);
      RunKeepsSorted(Next(s, steps[0]), steps[1..]);
    }
  }

  lemma CountOfOthers(rs: seq<Result>, r: Result)
    requires forall i :: 0 <= i < |rs| ==> rs[i] != r
    ensures Count(rs, r) == 0
  {
    assert r !in rs;
  }

  lemma {:induction false} HandedAreEncodable(batches: seq<seq<Result>>, r: Result)
    requires forall b :: 0 <= b < |batches| ==> AllEncodable(batches[b])
    requires !r.encodable
    ensures CountHanded(batches, r) == 0
  {
    if batches == [] {
    } else {
      HandedAreEncodable(batches[..|batches| - 1], r);
      CountOfOthers(batches[|batches| - 1], r);
    }
  }

  /** Over every run: every verdict that was ever reached is delivered, queued, in
      the batch, handed over or dropped, once each; dropped are only ones that
      cannot be encoded, and handed over only ones that can. */
  lemma VerdictsAreKept(configured: int, incoming: seq<Message>, steps: seq<Step>)
    requires Executable(Initial(configured, incoming), steps)
    ensures var s := Exec(Initial(configured, incoming), steps);
      && (forall r :: Places(s, r) == Verdicts(Initial(configured, incoming), steps, r))
      && (forall i :: 0 <= i < |s.unencodable| ==> !s.unencodable[i].encodable)
      && (forall b, i :: 0 <= b < |s.handed| && 0 <= i < |s.handed[b]| ==> s.handed[b][i].encodable)
  {
    var s0 := Initial(configured, incoming);
    RunKeepsSorted(s0, steps);
    forall r ensures Places(Exec(s0, steps), r) == Verdicts(s0, steps, r) {
      NobodyDelivers(s0.workers, r);
      RunKeepsPlaces(s0, steps, r);
    }
  }

  /** When the drain is complete, the writer has had each encodable verdict exactly
      as often as a probe ended with it, verdict and all, and no other. */
  lemma DrainHandsOverEveryVerdict(configured: int, incoming: seq<Message>, steps: seq<Step>, r: Result)
    requires Executable(Initial(configured, incoming), steps)
    requires Exec(Initial(configured, incoming), steps).shutdown.Complete?
    ensures CountHanded(Exec(Initial(configured, incoming), steps).handed, r) ==
            if r.encodable then Verdicts(Initial(configured, incoming), steps, r) else 0
  {
    var s := Exec(Initial(configured, incoming), steps);
    InitialInvariant(configured, incoming);
    RunKeepsInvariant(Initial(configured, incoming), steps);
    VerdictsAreKept(configured, incoming, steps);
    assert s.workers[0].Exited?;
    NobodyDelivers(s.workers, r);
    if r.encodable {
      CountOfOthers(s.unencodable, r);
    } else {
      HandedAreEncodable(s.handed, r);
    }
    assert Places(s, r) == Verdicts(Initial(configured, incoming), steps, r);
  }

  predicate AllProbesEncodable(steps: seq<Step>) {
    forall i :: 0 <= i < |steps| && steps[i].FinishProbe? ==> steps[i].encodable
  }

  lemma {:induction false} NoOtherVerdicts(s: Engine, steps: seq<Step>, r: Result)
    requires Executable(s, steps) && AllProbesEncodable(steps) && !r.encodable
    ensures Verdicts(s, steps, r) == 0
    decreases steps
  {
    if steps == [] {
    } else {
      NoOtherVerdicts(Next(s, steps[0]), steps[1..], r);
    }
  }

  /** If marshalling succeeds, a complete drain has handed over exactly one result
      for every accepted target. */
  lemma DrainHandsOverEveryTarget(configured: int, incoming: seq<Message>, steps: seq<Step>, x: Target)
    requires Executable(Initial(configured, incoming), steps) && AllProbesEncodable(steps)
    requires Exec(Initial(configured, incoming), steps).shutdown.Complete?
    ensures var s := Exec(Initial(configured, incoming), steps);
            s.unencodable == [] && InTargets(s.accepted, x) == InBatches(s.handed, x)
  {
    var s := Exec(Initial(configured, incoming), steps);
    VerdictsAreKept(configured, incoming, steps);
    if s.unencodable != [] {
      var r := s.unencodable[0];
      NoOtherVerdicts(Initial(configured, incoming), steps, r);
      assert Places(s, r) == Verdicts(Initial(configured, incoming), steps, r);
      CountHead(s.unencodable, r);
    }
    DrainHandsOverEverything(configured, incoming, steps);
    assert InTargets(s.accepted, x) == InBatches(s.handed, x) + InResults(s.unencodable, x);
  }

  // ----------------------------------------------------------- Capacities

  /** Both channels take exactly up to 1000, a batch exactly up to 100. */
  lemma Capacities(s: Engine, w: nat)
    requires !s.panicked
    ensures s.reader.Offering? && !s.targetsClosed ==> (Enabled(s, OfferTarget) <==> |s.targetChan| < 1000)
    ensures w < |s.workers| && s.workers[w].Delivering? && !s.resultsClosed ==>
              (Enabled(s, DeliverResult(w)) <==> |s.resultChan| < 1000)
    ensures s.publisher.Collecting? && s.resultChan != [] ==>
              (Enabled(s, AnotherResult) <==> |s.publisher.batch| < 100)
    ensures s.publisher.Collecting? ==> (Enabled(s, BatchFull) <==> |s.publisher.batch| >= 100)
  {
  }

  // ---------------------------------------------------------------- Input

  function Payloads(messages: seq<Message>): seq<Target> {
    if messages == [] then []
    else Payloads(messages[..|messages| - 1]) +
         if messages[|messages| - 1].Payload? then [messages[|messages| - 1].target] else []
  }

  function Offered(r: Reader): seq<Target> { if r.Offering? then [r.target] else [] }

  // The targets among the messages read so far.
  function Read(s: Engine, incoming: seq<Message>): seq<Target>
    requires |s.incoming| <= |incoming|
  {
    Payloads(incoming[..|incoming| - |s.incoming|])
  }

  // What became of them.
  predicate ReadSoFar(s: Engine, incoming: seq<Message>) {
    && |s.incoming| <= |incoming| && s.incoming == incoming[|incoming| - |s.incoming|..]
    && if s.reader.Stopped? then s.accepted <= Read(s, incoming) && |Read(s, incoming)| <= |s.accepted| + 1
       else s.accepted + Offered(s.reader) == Read(s, incoming)
  }

  lemma ReadOneMore(s: Engine, incoming: seq<Message>)
    requires |s.incoming| <= |incoming| && s.incoming == incoming[|incoming| - |s.incoming|..] && s.incoming != []
    ensures var t := s.(incoming := s.incoming[1..]);
            t.incoming == incoming[|incoming| - |t.incoming|..] &&
            Read(t, incoming) == Read(s, incoming) + if s.incoming[0].Payload? then [s.incoming[0].target] else []
  {
    var n := |incoming| - |s.incoming|;
    assert incoming[..n + 1][..n] == incoming[..n] && incoming[n] == s.incoming[0];
  }

  lemma ReaderKeepsReading(s: Engine, step: Step, incoming: seq<Message>)
    requires Enabled(s, step) && ReadSoFar(s, incoming)
    requires step.ReadMessage? || step.ReadError? || step.OfferTarget? || step.AbandonOffer?
    requires !NextReader(s, step).panicked
    ensures ReadSoFar(NextReader(s, step), incoming)
  {
    match step
    case ReadMessage => ReadOneMore(s, incoming);
    case ReadError =>
    case OfferTarget =>
      assert s.accepted + [s.reader.target] + [] == s.accepted + [s.reader.target];
    case AbandonOffer =>
  }

  // Nobody else touches the reader's books.
  lemma OthersKeepReading(s: Engine, step: Step)
    requires Enabled(s, step)
    requires !step.ReadMessage? && !step.ReadError? && !step.OfferTarget? && !step.AbandonOffer?
    ensures Next(s, step).reader == s.reader && Next(s, step).incoming == s.incoming
    ensures Next(s, step).accepted == s.accepted
  {
  }

  lemma StepKeepsReading(s: Engine, step: Step, incoming: seq<Message>)
    requires Enabled(s, step) && ReadSoFar(s, incoming) && !Next(s, step).panicked
    ensures ReadSoFar(Next(s, step), incoming)
  {
    if step.ReadMessage? || step.ReadError? || step.OfferTarget? || step.AbandonOffer? {
      ReaderKeepsReading(s, step, incoming);
    } else {
      OthersKeepReading(s, step);
    }
  }

  lemma {:induction false} RunKeepsReading(s: Engine, steps: seq<Step>, incoming: seq<Message>)
    requires Invariant(s) && Executable(s, steps) && ReadSoFar(s, incoming)
    ensures ReadSoFar(Exec(s, steps), incoming)
    decreases steps
  {
    if steps == [] {
    } else {
      StepKeepsInvariant(s, steps[0]);
      StepKeepsReading(s, steps[0], incoming);
      RunKeepsReading(Next(s, steps[0]), steps[1..], incoming);
    }
  }

  /** Every target read is accepted, in order and once, while corrupt payloads are
      passed over; only the one on offer when the reader stops may be given up. */
  lemma TargetsAreAcceptedInOrder(configured: int, incoming: seq<Message>, steps: seq<Step>)
    requires Executable(Initial(configured, incoming), steps)
    ensures var s := Exec(Initial(configured, incoming), steps);
            && |s.incoming| <= |incoming|
            && s.accepted <= Read(s, incoming) && |Read(s, incoming)| <= |s.accepted| + 1
            && (s.reader.Reading? ==> s.accepted == Read(s, incoming))
  {
    InitialInvariant(configured, incoming);
    RunKeepsReading(Initial(configured, incoming), steps, incoming);
  }
}
