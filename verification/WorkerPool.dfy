/**
 The ping engine's worker pool and its ordered shutdown: two bounded channels,
 N workers, one Kafka reader, one batching publisher and one shutdown
 goroutine, interleaved arbitrarily. Channel operations follow Go: a send on a
 closed channel and a second close panic, a receive from a closed channel
 still delivers what is buffered.
 */
module WorkerPool {

  const CHANNEL_CAPACITY := 1000
  const BATCH_SIZE := 100
  const DEFAULT_WORKERS := 20

  datatype Target = Target(id: int, workspaceId: int)

  // `encodable` says whether json.Marshal accepts the result.
  datatype Result = Result(targetId: int, workspaceId: int, isUp: bool, encodable: bool)

  datatype Message = Payload(target: Target) | Corrupt

  datatype Reader = Reading | Offering(target: Target) | Stopped

  datatype Worker = Idle | Probing(target: Target) | Delivering(result: Result) | Exited

  datatype Publisher =
    | Waiting
    | Collecting(batch: seq<Result>)
    | Flushing(batch: seq<Result>, channelClosed: bool)
    | Finished

  // The goroutine started by the signal: cancel, wait for the reader, close
  // TargetChan, wait for the workers, close ResultChan, wait for the publisher.
  datatype Shutdown =
    | Serving
    | AwaitingReader
    | ClosingTargets
    | AwaitingWorkers
    | ClosingResults
    | AwaitingPublisher
    | Complete
  {
    function Rank(): nat {
      match this
      case Serving => 0
      case AwaitingReader => 1
      case ClosingTargets => 2
      case AwaitingWorkers => 3
      case ClosingResults => 4
      case AwaitingPublisher => 5
      case Complete => 6
    }
  }

  datatype Engine = Engine(
    incoming: seq<Message>,
    reader: Reader,
    targetChan: seq<Target>,
    targetsClosed: bool,
    workers: seq<Worker>,
    resultChan: seq<Result>,
    resultsClosed: bool,
    publisher: Publisher,
    shutdown: Shutdown,
    panicked: bool,
    // What happened so far: targets that entered TargetChan, batches handed to
    // the Kafka writer, results whose marshalling failed.
    accepted: seq<Target>,
    handed: seq<seq<Result>>,
    unencodable: seq<Result>)
  {
    predicate Cancelled() { shutdown != Serving }
  }

  datatype Step =
    | ReadMessage
    | ReadError
    | OfferTarget
    | AbandonOffer
    | TakeTarget(worker: nat)
    | FinishProbe(worker: nat, isUp: bool, encodable: bool)
    | DeliverResult(worker: nat)
    | ExitWorker(worker: nat)
    | FirstResult
    | AnotherResult
    | SeeResultsClosed
    | TimerFires
    | BatchFull
    | Flush
    | Signal
    | SeeReaderDone
    | CloseTargets
    | SeeWorkersDone
    | CloseResults
    | SeePublisherDone

  function WorkerCount(configured: int): (n: nat)
    ensures n >= 1 && (n == configured || (n == 20 && configured < 1))
  {
    if configured <= 0 then DEFAULT_WORKERS else configured
  }

  function Initial(configured: int, incoming: seq<Message>): Engine {
    Engine(incoming, Reading, [], false, seq(WorkerCount(configured), _ => Idle),
           [], false, Waiting, Serving, false, [], [], [])
  }

  // ---------------------------------------------------------------- Steps

  predicate AllExited(workers: seq<Worker>) {
    forall w :: 0 <= w < |workers| ==> workers[w].Exited?
  }

  // When the Go runtime lets the goroutine take this step.
  predicate Enabled(s: Engine, step: Step) {
    !s.panicked &&
    match step
    case ReadMessage => s.reader.Reading? && s.incoming != []
    case ReadError => s.reader.Reading?
    case OfferTarget => s.reader.Offering? && (s.targetsClosed || |s.targetChan| < CHANNEL_CAPACITY)
    case AbandonOffer => s.reader.Offering? && s.Cancelled()
    case TakeTarget(w) => w < |s.workers| && s.workers[w].Idle? && s.targetChan != []
    case FinishProbe(w, _, _) => w < |s.workers| && s.workers[w].Probing?
    case DeliverResult(w) =>
      w < |s.workers| && s.workers[w].Delivering? &&
      (s.resultsClosed || |s.resultChan| < CHANNEL_CAPACITY)
    case ExitWorker(w) =>
      w < |s.workers| && s.workers[w].Idle? && s.targetChan == [] && s.targetsClosed
    case FirstResult => s.publisher.Waiting? && s.resultChan != []
    case AnotherResult =>
      s.publisher.Collecting? && |s.publisher.batch| < BATCH_SIZE && s.resultChan != []
    case SeeResultsClosed =>
      (s.publisher.Waiting? || (s.publisher.Collecting? && |s.publisher.batch| < BATCH_SIZE)) &&
      s.resultChan == [] && s.resultsClosed
    case TimerFires => s.publisher.Collecting? && |s.publisher.batch| < BATCH_SIZE
    case BatchFull => s.publisher.Collecting? && |s.publisher.batch| >= BATCH_SIZE
    case Flush => s.publisher.Flushing?
    case Signal => s.shutdown.Serving?
    case SeeReaderDone => s.shutdown.AwaitingReader? && s.reader.Stopped?
    case CloseTargets => s.shutdown.ClosingTargets?
    case SeeWorkersDone => s.shutdown.AwaitingWorkers? && AllExited(s.workers)
    case CloseResults => s.shutdown.ClosingResults?
    case SeePublisherDone => s.shutdown.AwaitingPublisher? && s.publisher.Finished?
  }

  function NextReader(s: Engine, step: Step): Engine
    requires Enabled(s, step)
    requires step.ReadMessage? || step.ReadError? || step.OfferTarget? || step.AbandonOffer?
  {
    match step
    case ReadMessage =>
      var rest := s.(incoming := s.incoming[1..]);
      if s.incoming[0].Payload? then rest.(reader := Offering(s.incoming[0].target)) else rest
    case ReadError =>
      // The loop retries unless the context is cancelled.
      if s.Cancelled() then s.(reader := Stopped) else s
    case OfferTarget =>
      if s.targetsClosed then s.(panicked := true)
      else s.(reader := Reading,
              targetChan := s.targetChan + [s.reader.target],
              accepted := s.accepted + [s.reader.target])
    case AbandonOffer => s.(reader := Stopped)
  }

  function NextWorker(s: Engine, step: Step): Engine
    requires Enabled(s, step)
    requires step.TakeTarget? || step.FinishProbe? || step.DeliverResult? || step.ExitWorker?
  {
    match step
    case TakeTarget(w) =>
      s.(workers := s.workers[w := Probing(s.targetChan[0])], targetChan := s.targetChan[1..])
    case FinishProbe(w, isUp, encodable) =>
      var target := s.workers[w].target;
      s.(workers := s.workers[w := Delivering(Result(target.id, target.workspaceId, isUp, encodable))])
    case DeliverResult(w) =>
      if s.resultsClosed then s.(panicked := true)
      else s.(workers := s.workers[w := Idle],
              resultChan := s.resultChan + [s.workers[w].result])
    case ExitWorker(w) => s.(workers := s.workers[w := Exited])
  }

  // appendResult: a result that cannot be marshalled is logged and dropped.
  function Append(s: Engine, batch: seq<Result>, result: Result): Engine {
    if result.encodable
    then s.(publisher := Collecting(batch + [result]))
    else s.(publisher := Collecting(batch), unencodable := s.unencodable + [result])
  }

  function NextPublisher(s: Engine, step: Step): Engine
    requires Enabled(s, step)
    requires step.FirstResult? || step.AnotherResult? || step.SeeResultsClosed? ||
             step.TimerFires? || step.BatchFull? || step.Flush?
  {
    match step
    case FirstResult =>
      Append(s.(resultChan := s.resultChan[1..]), [], s.resultChan[0])
    case AnotherResult =>
      Append(s.(resultChan := s.resultChan[1..]), s.publisher.batch, s.resultChan[0])
    case SeeResultsClosed =>
      if s.publisher.Waiting? then s.(publisher := Finished)
      else s.(publisher := Flushing(s.publisher.batch, true))
    case TimerFires => s.(publisher := Flushing(s.publisher.batch, false))
    case BatchFull => s.(publisher := Flushing(s.publisher.batch, false))
    case Flush =>
      var next := s.(publisher := if s.publisher.channelClosed then Finished else Waiting);
      if s.publisher.batch == [] then next else next.(handed := s.handed + [s.publisher.batch])
  }

  function NextShutdown(s: Engine, step: Step): Engine
    requires Enabled(s, step)
    requires step.Signal? || step.SeeReaderDone? || step.CloseTargets? ||
             step.SeeWorkersDone? || step.CloseResults? || step.SeePublisherDone?
  {
    match step
    case Signal => s.(shutdown := AwaitingReader)
    case SeeReaderDone => s.(shutdown := ClosingTargets)
    case CloseTargets =>
      if s.targetsClosed then s.(panicked := true)
      else s.(shutdown := AwaitingWorkers, targetsClosed := true)
    case SeeWorkersDone => s.(shutdown := ClosingResults)
    case CloseResults =>
      if s.resultsClosed then s.(panicked := true)
      else s.(shutdown := AwaitingPublisher, resultsClosed := true)
    case SeePublisherDone => s.(shutdown := Complete)
  }

  function Next(s: Engine, step: Step): Engine
    requires Enabled(s, step)
  {
    match step
    case ReadMessage | ReadError | OfferTarget | AbandonOffer => NextReader(s, step)
    case TakeTarget(_) | FinishProbe(_, _, _) | DeliverResult(_) | ExitWorker(_) => NextWorker(s, step)
    case FirstResult | AnotherResult | SeeResultsClosed | TimerFires | BatchFull | Flush =>
      NextPublisher(s, step)
    case _ => NextShutdown(s, step)
  }

  // Any interleaving is a list of steps, each enabled where it is taken.
  predicate Executable(s: Engine, steps: seq<Step>)
    decreases steps
  {
    steps == [] || (Enabled(s, steps[0]) && Executable(Next(s, steps[0]), steps[1..]))
  }

  function Exec(s: Engine, steps: seq<Step>): Engine
    requires Executable(s, steps)
    decreases steps
  {
    if steps == [] then s else Exec(Next(s, steps[0]), steps[1..])
  }

  // --------------------------------------------------------- Conservation
  //
  // Multisets of targets, as the number of occurrences of each target x.

  function Origin(r: Result): Target { Target(r.targetId, r.workspaceId) }

  function One(b: bool): nat { if b then 1 else 0 }

  function InTargets(ts: seq<Target>, x: Target): nat {
    if ts == [] then 0 else InTargets(ts[..|ts| - 1], x) + One(ts[|ts| - 1] == x)
  }

  function InResults(rs: seq<Result>, x: Target): nat {
    if rs == [] then 0 else InResults(rs[..|rs| - 1], x) + One(Origin(rs[|rs| - 1]) == x)
  }

  function InBatches(batches: seq<seq<Result>>, x: Target): nat {
    if batches == [] then 0
    else InBatches(batches[..|batches| - 1], x) + InResults(batches[|batches| - 1], x)
  }

  function HeldBy(w: Worker, x: Target): nat {
    match w
    case Probing(t) => One(t == x)
    case Delivering(r) => One(Origin(r) == x)
    case _ => 0
  }

  function InWorkers(workers: seq<Worker>, x: Target): nat {
    if workers == [] then 0
    else InWorkers(workers[..|workers| - 1], x) + HeldBy(workers[|workers| - 1], x)
  }

  function Batch(p: Publisher): seq<Result> {
    if p.Collecting? || p.Flushing? then p.batch else []
  }

  // How often x sits in one of the places an accepted target can be.
  function Accounted(s: Engine, x: Target): nat {
    InTargets(s.targetChan, x) + InWorkers(s.workers, x) + InResults(s.resultChan, x) +
    InResults(Batch(s.publisher), x) + InBatches(s.handed, x) + InResults(s.unencodable, x)
  }

  predicate Balanced(s: Engine, x: Target) {
    InTargets(s.accepted, x) == Accounted(s, x)
  }

  lemma TargetsAppend(ts: seq<Target>, t: Target, x: Target)
    ensures InTargets(ts + [t], x) == InTargets(ts, x) + One(t == x)
  {
    assert (ts + [t])[..|ts|] == ts;
  }

  lemma {:induction false} TargetsHead(ts: seq<Target>, x: Target)
    requires ts != []
    ensures InTargets(ts, x) == One(ts[0] == x) + InTargets(ts[1..], x)
  {
    if |ts| == 1 {
    } else {
      TargetsHead(ts[..|ts| - 1], x);
      assert ts[1..][..|ts| - 2] == ts[..|ts| - 1][1..];
    }
  }

  lemma ResultsAppend(rs: seq<Result>, r: Result, x: Target)
    ensures InResults(rs + [r], x) == InResults(rs, x) + One(Origin(r) == x)
  {
    assert (rs + [r])[..|rs|] == rs;
  }

  lemma {:induction false} ResultsHead(rs: seq<Result>, x: Target)
    requires rs != []
    ensures InResults(rs, x) == One(Origin(rs[0]) == x) + InResults(rs[1..], x)
  {
    if |rs| == 1 {
    } else {
      ResultsHead(rs[..|rs| - 1], x);
      assert rs[1..][..|rs| - 2] == rs[..|rs| - 1][1..];
    }
  }

  lemma BatchesAppend(batches: seq<seq<Result>>, batch: seq<Result>, x: Target)
    ensures InBatches(batches + [batch], x) == InBatches(batches, x) + InResults(batch, x)
  {
    assert (batches + [batch])[..|batches|] == batches;
  }

  lemma {:induction false} WorkersUpdate(workers: seq<Worker>, i: nat, w: Worker, x: Target)
    requires i < |workers|
    ensures InWorkers(workers[i := w], x) + HeldBy(workers[i], x) == InWorkers(workers, x) + HeldBy(w, x)
  {
    var last := |workers| - 1;
    if i == last {
      assert workers[i := w][..last] == workers[..last];
    } else {
      WorkersUpdate(workers[..last], i, w, x);
      assert workers[i := w][..last] == workers[..last][i := w];
    }
  }

  lemma {:induction false} WorkersHoldNothing(workers: seq<Worker>, x: Target)
    requires forall w :: 0 <= w < |workers| ==> workers[w].Idle? || workers[w].Exited?
    ensures InWorkers(workers, x) == 0
  {
    if workers == [] {
    } else {
      WorkersHoldNothing(workers[..|workers| - 1], x);
    }
  }

  lemma BalancedByOffer(s: Engine, x: Target)
    requires Enabled(s, OfferTarget) && Balanced(s, x)
    ensures Balanced(NextReader(s, OfferTarget), x)
  {
    TargetsAppend(s.targetChan, s.reader.target, x);
    TargetsAppend(s.accepted, s.reader.target, x);
  }

  lemma BalancedByWorker(s: Engine, step: Step, x: Target)
    requires Enabled(s, step) && Balanced(s, x)
    requires step.TakeTarget? || step.FinishProbe? || step.DeliverResult? || step.ExitWorker?
    ensures Balanced(NextWorker(s, step), x)
  {
    var t := NextWorker(s, step);
    var w := step.worker;
    WorkersUpdate(s.workers, w, t.workers[w], x);
    assert t.workers == s.workers[w := t.workers[w]];
    if step.TakeTarget? {
      TargetsHead(s.targetChan, x);
    } else if step.DeliverResult? {
      ResultsAppend(s.resultChan, s.workers[w].result, x);
    }
  }

  lemma BalancedByAppend(s: Engine, batch: seq<Result>, x: Target)
    requires s.resultChan != [] && batch == Batch(s.publisher) && Balanced(s, x)
    ensures Balanced(Append(s.(resultChan := s.resultChan[1..]), batch, s.resultChan[0]), x)
  {
    var r := s.resultChan[0];
    var rest := s.resultChan[1..];
    var t := Append(s.(resultChan := rest), batch, r);
    ResultsHead(s.resultChan, x);
    if r.encodable {
      ResultsAppend(batch, r, x);
      assert Batch(t.publisher) == batch + [r] && t.unencodable == s.unencodable;
    } else {
      ResultsAppend(s.unencodable, r, x);
      assert Batch(t.publisher) == batch && t.unencodable == s.unencodable + [r];
    }
    assert InResults(Batch(t.publisher), x) + InResults(t.unencodable, x) + InResults(t.resultChan, x) ==
           InResults(batch, x) + InResults(s.unencodable, x) + InResults(s.resultChan, x);
    assert t.targetChan == s.targetChan && t.workers == s.workers && t.handed == s.handed;
    assert Accounted(t, x) == Accounted(s, x);
  }

  lemma BalancedByReceive(s: Engine, step: Step, x: Target)
    requires Enabled(s, step) && Balanced(s, x)
    requires step.FirstResult? || step.AnotherResult?
    ensures Balanced(NextPublisher(s, step), x)
  {
    var batch := if step.FirstResult? then [] else s.publisher.batch;
    BalancedByAppend(s, batch, x);
    assert NextPublisher(s, step) == Append(s.(resultChan := s.resultChan[1..]), batch, s.resultChan[0]);
  }

  lemma HandedOver(handed: seq<seq<Result>>, batch: seq<Result>, x: Target)
    ensures InBatches(if batch == [] then handed else handed + [batch], x) == InBatches(handed, x) + InResults(batch, x)
  {
    if batch != [] {
      BatchesAppend(handed, batch, x);
    }
  }

  lemma EmptiedIsBalanced(s: Engine, next: Publisher, handed: seq<seq<Result>>, x: Target)
    requires Balanced(s, x) && Batch(next) == []
    requires InBatches(handed, x) == InBatches(s.handed, x) + InResults(Batch(s.publisher), x)
    ensures Balanced(s.(publisher := next, handed := handed), x)
  {
    assert InResults([], x) == 0;
  }

  lemma BalancedByFlush(s: Engine, x: Target)
    requires Enabled(s, Flush) && Balanced(s, x)
    ensures Balanced(NextPublisher(s, Flush), x)
  {
    var batch := s.publisher.batch;
    var next := if s.publisher.channelClosed then Finished else Waiting;
    HandedOver(s.handed, batch, x);
    EmptiedIsBalanced(s, next, if batch == [] then s.handed else s.handed + [batch], x);
  }

  predicate SameBooks(s: Engine, t: Engine) {
    && t.accepted == s.accepted && t.targetChan == s.targetChan && t.workers == s.workers
    && t.resultChan == s.resultChan && Batch(t.publisher) == Batch(s.publisher)
    && t.handed == s.handed && t.unencodable == s.unencodable
  }

  lemma BalancedBySameBooks(s: Engine, t: Engine, x: Target)
    requires SameBooks(s, t) && Balanced(s, x)
    ensures Balanced(t, x)
  {
  }

  predicate MovesWork(step: Step) {
    step.OfferTarget? || step.TakeTarget? || step.FinishProbe? || step.DeliverResult? || step.ExitWorker? ||
    step.FirstResult? || step.AnotherResult? || step.Flush?
  }

  lemma OtherStepsKeepBooks(s: Engine, step: Step)
    requires Enabled(s, step) && !MovesWork(step)
    ensures SameBooks(s, Next(s, step))
  {
  }

  lemma StepKeepsBalance(s: Engine, step: Step, x: Target)
    requires Enabled(s, step) && Balanced(s, x)
    ensures Balanced(Next(s, step), x)
  {
    if !MovesWork(step) {
      OtherStepsKeepBooks(s, step);
      BalancedBySameBooks(s, Next(s, step), x);
    } else {
      match step
      case OfferTarget => BalancedByOffer(s, x);
      case FirstResult | AnotherResult => BalancedByReceive(s, step, x);
      case Flush => BalancedByFlush(s, x);
      case _ => BalancedByWorker(s, step, x);
    }
  }

  lemma {:induction false} RunKeepsBalance(s: Engine, steps: seq<Step>, x: Target)
    requires Balanced(s, x) && Executable(s, steps)
    ensures Balanced(Exec(s, steps), x)
    decreases steps
  {
    if steps == [] {
    } else {
      StepKeepsBalance(s, steps[0], x);
      RunKeepsBalance(Next(s, steps[0]), steps[1..], x);
    }
  }

  // --------------------------------------------------------------- Safety

  predicate Ordered(s: Engine) {
    && |s.workers| >= 1
    && !s.panicked
    && s.targetsClosed == (s.shutdown.Rank() >= AwaitingWorkers.Rank())
    && s.resultsClosed == (s.shutdown.Rank() >= AwaitingPublisher.Rank())
    && (s.shutdown.Rank() >= ClosingTargets.Rank() ==> s.reader.Stopped?)
    && (s.shutdown.Rank() >= ClosingResults.Rank() ==> AllExited(s.workers))
    && (s.shutdown.Complete? ==> s.publisher.Finished?)
    && (s.reader.Stopped? ==> s.Cancelled())
  }

  predicate Drained(s: Engine) {
    && (forall w :: 0 <= w < |s.workers| && s.workers[w].Exited? ==> s.targetsClosed && s.targetChan == [])
    && ((s.publisher.Finished? || (s.publisher.Flushing? && s.publisher.channelClosed)) ==>
          s.resultsClosed && s.resultChan == [])
  }

  predicate Bounded(s: Engine) {
    && |s.targetChan| <= CHANNEL_CAPACITY
    && |s.resultChan| <= CHANNEL_CAPACITY
    && |Batch(s.publisher)| <= BATCH_SIZE
    && (forall b :: 0 <= b < |s.handed| ==> 1 <= |s.handed[b]| <= BATCH_SIZE)
  }

  predicate Invariant(s: Engine) {
    && Ordered(s)
    && Drained(s)
    && Bounded(s)
  }

  lemma ReaderKeepsInvariant(s: Engine, step: Step)
    requires Invariant(s) && Enabled(s, step)
    requires step.ReadMessage? || step.ReadError? || step.OfferTarget? || step.AbandonOffer?
    ensures Invariant(NextReader(s, step))
  {
  }

  lemma WorkerKeepsInvariant(s: Engine, step: Step)
    requires Invariant(s) && Enabled(s, step)
    requires step.TakeTarget? || step.FinishProbe? || step.DeliverResult? || step.ExitWorker?
    ensures Invariant(NextWorker(s, step))
  {
    var t := NextWorker(s, step);
    assert !s.workers[step.worker].Exited?;
    assert forall w :: 0 <= w < |s.workers| && w != step.worker ==> t.workers[w] == s.workers[w];
  }

  lemma AppendKeepsInvariant(s: Engine, batch: seq<Result>, result: Result)
    requires Invariant(s) && |batch| < BATCH_SIZE && s.resultChan != []
    requires s.publisher.Waiting? || s.publisher.Collecting?
    ensures Invariant(Append(s.(resultChan := s.resultChan[1..]), batch, result))
  {
  }

  lemma ReceiveKeepsInvariant(s: Engine, step: Step)
    requires Invariant(s) && Enabled(s, step)
    requires step.FirstResult? || step.AnotherResult?
    ensures Invariant(NextPublisher(s, step))
  {
    AppendKeepsInvariant(s, if step.FirstResult? then [] else s.publisher.batch, s.resultChan[0]);
  }

  lemma PublisherKeepsOrder(s: Engine, step: Step)
    requires Ordered(s) && Enabled(s, step)
    requires step.SeeResultsClosed? || step.TimerFires? || step.BatchFull? || step.Flush?
    ensures Ordered(NextPublisher(s, step))
  {
  }

  lemma PublisherKeepsBounds(s: Engine, step: Step)
    requires Bounded(s) && Enabled(s, step)
    requires step.SeeResultsClosed? || step.TimerFires? || step.BatchFull? || step.Flush?
    ensures Bounded(NextPublisher(s, step))
  {
  }

  lemma PublisherKeepsInvariant(s: Engine, step: Step)
    requires Invariant(s) && Enabled(s, step)
    requires step.SeeResultsClosed? || step.TimerFires? || step.BatchFull? || step.Flush?
    ensures Invariant(NextPublisher(s, step))
  {
    PublisherKeepsOrder(s, step);
    PublisherKeepsBounds(s, step);
  }

  lemma ShutdownKeepsInvariant(s: Engine, step: Step)
    requires Invariant(s) && Enabled(s, step)
    requires step.Signal? || step.SeeReaderDone? || step.CloseTargets? ||
             step.SeeWorkersDone? || step.CloseResults? || step.SeePublisherDone?
    ensures Invariant(NextShutdown(s, step))
  {
  }

  lemma StepKeepsInvariant(s: Engine, step: Step)
    requires Invariant(s) && Enabled(s, step)
    ensures Invariant(Next(s, step))
  {
    match step
    case ReadMessage | ReadError | OfferTarget | AbandonOffer => ReaderKeepsInvariant(s, step);
    case TakeTarget(_) | FinishProbe(_, _, _) | DeliverResult(_) | ExitWorker(_) =>
      WorkerKeepsInvariant(s, step);
    case FirstResult | AnotherResult => ReceiveKeepsInvariant(s, step);
    case SeeResultsClosed | TimerFires | BatchFull | Flush => PublisherKeepsInvariant(s, step);
    case _ => ShutdownKeepsInvariant(s, step);
  }

  lemma {:induction false} RunKeepsInvariant(s: Engine, steps: seq<Step>)
    requires Invariant(s) && Executable(s, steps)
    ensures Invariant(Exec(s, steps))
    decreases steps
  {
    if steps == [] {
    } else {
      StepKeepsInvariant(s, steps[0]);
      RunKeepsInvariant(Next(s, steps[0]), steps[1..]);
    }
  }

  lemma InitialInvariant(configured: int, incoming: seq<Message>)
    ensures Invariant(Initial(configured, incoming))
  {
  }

  /** Conservation: in every interleaving each accepted target is queued, being
      probed, waiting as a result, in the publisher's batch, handed to the
      writer, or dropped because it could not be marshalled. No send hits a
      closed channel and nothing is closed twice. */
  lemma PoolIsSafe(configured: int, incoming: seq<Message>, steps: seq<Step>)
    requires Executable(Initial(configured, incoming), steps)
    ensures var s := Exec(Initial(configured, incoming), steps);
            && (forall x :: InTargets(s.accepted, x) == Accounted(s, x))
            && !s.panicked
            && |s.targetChan| <= 1000 && |s.resultChan| <= 1000
            && (s.publisher.Collecting? || s.publisher.Flushing? ==> |s.publisher.batch| <= 100)
  {
    var s0 := Initial(configured, incoming);
    InitialInvariant(configured, incoming);
    RunKeepsInvariant(s0, steps);
    forall x ensures InTargets(Exec(s0, steps).accepted, x) == Accounted(Exec(s0, steps), x) {
      WorkersHoldNothing(s0.workers, x);
      RunKeepsBalance(s0, steps, x);
    }
  }

  /** When the drain is complete every accepted target has exactly one result
      with the writer (or was not encodable), in batches of 1 to 100. */
  lemma DrainHandsOverEverything(configured: int, incoming: seq<Message>, steps: seq<Step>)
    requires Executable(Initial(configured, incoming), steps)
    requires Exec(Initial(configured, incoming), steps).shutdown.Complete?
    ensures var s := Exec(Initial(configured, incoming), steps);
            && (forall x :: InTargets(s.accepted, x) == InBatches(s.handed, x) + InResults(s.unencodable, x))
            && AllExited(s.workers)
            && forall b :: 0 <= b < |s.handed| ==> 1 <= |s.handed[b]| <= 100
  {
    InitialInvariant(configured, incoming);
    RunKeepsInvariant(Initial(configured, incoming), steps);
    PoolIsSafe(configured, incoming, steps);
    var s := Exec(Initial(configured, incoming), steps);
    assert s.workers[0].Exited?;
    forall x ensures InTargets(s.accepted, x) == InBatches(s.handed, x) + InResults(s.unencodable, x) {
      WorkersHoldNothing(s.workers, x);
      assert InTargets(s.accepted, x) == Accounted(s, x);
    }
  }

  // ---------------------------------------------------------- Termination

  function WorkerWeight(w: Worker): nat {
    match w
    case Idle => 1
    case Probing(_) => 6
    case Delivering(_) => 5
    case Exited => 0
  }

  function PoolWeight(workers: seq<Worker>): nat {
    if workers == [] then 0
    else PoolWeight(workers[..|workers| - 1]) + WorkerWeight(workers[|workers| - 1])
  }

  lemma {:induction false} PoolWeightUpdate(workers: seq<Worker>, i: nat, w: Worker)
    requires i < |workers|
    ensures PoolWeight(workers[i := w]) == PoolWeight(workers) - WorkerWeight(workers[i]) + WorkerWeight(w)
  {
    var last := |workers| - 1;
    if i == last {
      assert workers[i := w][..last] == workers[..last];
    } else {
      PoolWeightUpdate(workers[..last], i, w);
      assert workers[i := w][..last] == workers[..last][i := w];
    }
  }

  function ReaderWeight(r: Reader): nat {
    match r
    case Reading => 1
    case Offering(_) => 8
    case Stopped => 0
  }

  function PublisherWeight(p: Publisher): nat {
    match p
    case Waiting => 1
    case Collecting(_) => 3
    case Flushing(_, _) => 2
    case Finished => 0
  }

  // Work left: every stage a message still has to pass, and every phase left.
  function WorkLeft(s: Engine): nat {
    8 * |s.incoming| + ReaderWeight(s.reader) + 6 * |s.targetChan| + PoolWeight(s.workers) +
    3 * |s.resultChan| + PublisherWeight(s.publisher) + (6 - s.shutdown.Rank())
  }

  lemma WorkerUsesUpWork(s: Engine, step: Step)
    requires Invariant(s) && Enabled(s, step)
    requires step.TakeTarget? || step.FinishProbe? || step.DeliverResult? || step.ExitWorker?
    ensures WorkLeft(NextWorker(s, step)) < WorkLeft(s)
  {
    var w := step.worker;
    var t := NextWorker(s, step);
    PoolWeightUpdate(s.workers, w, t.workers[w]);
    assert t.workers == s.workers[w := t.workers[w]];
  }

  lemma AppendUsesUpWork(s: Engine, batch: seq<Result>, result: Result)
    requires s.resultChan != []
    ensures WorkLeft(Append(s.(resultChan := s.resultChan[1..]), batch, result)) ==
            WorkLeft(s) - PublisherWeight(s.publisher)
  {
  }

  lemma ReceiveUsesUpWork(s: Engine, step: Step)
    requires Enabled(s, step) && (step.FirstResult? || step.AnotherResult?)
    ensures WorkLeft(NextPublisher(s, step)) < WorkLeft(s)
  {
    AppendUsesUpWork(s, if step.FirstResult? then [] else s.publisher.batch, s.resultChan[0]);
  }

  lemma PublisherUsesUpWork(s: Engine, step: Step)
    requires Enabled(s, step)
    requires step.SeeResultsClosed? || step.TimerFires? || step.BatchFull? || step.Flush?
    ensures WorkLeft(NextPublisher(s, step)) < WorkLeft(s)
  {
  }

  lemma ReaderUsesUpWork(s: Engine, step: Step)
    requires Ordered(s) && Enabled(s, step) && !(step.ReadError? && !s.Cancelled())
    requires step.ReadMessage? || step.ReadError? || step.OfferTarget? || step.AbandonOffer?
    ensures WorkLeft(NextReader(s, step)) < WorkLeft(s)
  {
  }

  lemma ShutdownUsesUpWork(s: Engine, step: Step)
    requires Ordered(s) && Enabled(s, step)
    requires step.Signal? || step.SeeReaderDone? || step.CloseTargets? ||
             step.SeeWorkersDone? || step.CloseResults? || step.SeePublisherDone?
    ensures WorkLeft(NextShutdown(s, step)) < WorkLeft(s)
  {
  }

  /** Every step uses up work, except retrying a failed read while serving. */
  lemma StepUsesUpWork(s: Engine, step: Step)
    requires Invariant(s) && Enabled(s, step)
    requires !(step.ReadError? && !s.Cancelled())
    ensures WorkLeft(Next(s, step)) < WorkLeft(s)
  {
    match step
    case ReadMessage | ReadError | OfferTarget | AbandonOffer => ReaderUsesUpWork(s, step);
    case TakeTarget(_) | FinishProbe(_, _, _) | DeliverResult(_) | ExitWorker(_) =>
      WorkerUsesUpWork(s, step);
    case FirstResult | AnotherResult => ReceiveUsesUpWork(s, step);
    case SeeResultsClosed | TimerFires | BatchFull | Flush => PublisherUsesUpWork(s, step);
    case _ => ShutdownUsesUpWork(s, step);
  }

  lemma StepStaysCancelled(s: Engine, step: Step)
    requires s.Cancelled() && Enabled(s, step)
    ensures Next(s, step).Cancelled()
  {
  }

  lemma {:induction false} DrainBound(s: Engine, steps: seq<Step>)
    requires Invariant(s) && s.Cancelled() && Executable(s, steps)
    ensures |steps| + WorkLeft(Exec(s, steps)) <= WorkLeft(s)
    decreases steps
  {
    if steps == [] {
    } else {
      var t := Next(s, steps[0]);
      StepKeepsInvariant(s, steps[0]);
      StepUsesUpWork(s, steps[0]);
      StepStaysCancelled(s, steps[0]);
      DrainBound(t, steps[1..]);
    }
  }

  // A worker that is not gone can move, or is waiting for someone who can.
  function WorkerStep(s: Engine, w: nat): Step
    requires w < |s.workers|
  {
    match s.workers[w]
    case Idle => if s.targetChan != [] then TakeTarget(w) else ExitWorker(w)
    case Probing(_) => FinishProbe(w, true, true)
    case Delivering(_) => DeliverResult(w)
    case Exited => SeeWorkersDone
  }

  function PublisherStep(s: Engine): Step {
    match s.publisher
    case Waiting => if s.resultChan != [] then FirstResult else SeeResultsClosed
    case Collecting(b) => if |b| < BATCH_SIZE then TimerFires else BatchFull
    case Flushing(_, _) => Flush
    case Finished => SeePublisherDone
  }

  // The publisher can move whenever a result waits or a batch is open.
  lemma PublisherMoves(s: Engine)
    requires Invariant(s)
    requires s.resultChan != [] || s.publisher.Collecting? || s.publisher.Flushing?
    ensures Enabled(s, PublisherStep(s))
  {
  }

  // A worker holding work can move, unless ResultChan is full: then the publisher can.
  lemma BusyWorkerMoves(s: Engine, w: nat)
    requires Invariant(s) && w < |s.workers|
    requires s.workers[w].Probing? || s.workers[w].Delivering?
    ensures Enabled(s, WorkerStep(s, w)) || Enabled(s, PublisherStep(s))
  {
    if |s.resultChan| >= CHANNEL_CAPACITY {
      PublisherMoves(s);
    }
  }

  predicate Environment(step: Step) {
    step.ReadMessage? || step.ReadError? || step.Signal?
  }

  /** Before the signal: while an accepted target is not yet handed over, some
      goroutine can move without a new message, a read error or the signal. */
  lemma ServingIsNotStuck(s: Engine)
    requires Invariant(s) && !s.Cancelled()
    requires s.targetChan != [] || s.resultChan != [] || Batch(s.publisher) != [] ||
             (exists w :: 0 <= w < |s.workers| && (s.workers[w].Probing? || s.workers[w].Delivering?))
    ensures exists step :: Enabled(s, step) && !Environment(step)
  {
    if w :| 0 <= w < |s.workers| && (s.workers[w].Probing? || s.workers[w].Delivering?) {
      BusyWorkerMoves(s, w);
      assert Enabled(s, WorkerStep(s, w)) || Enabled(s, PublisherStep(s));
    } else if s.resultChan != [] || Batch(s.publisher) != [] {
      PublisherMoves(s);
    } else {
      assert Enabled(s, TakeTarget(0));
    }
  }

  lemma {:induction false} ServingBound(s: Engine, steps: seq<Step>)
    requires Invariant(s) && Executable(s, steps)
    requires forall i :: 0 <= i < |steps| ==> !Environment(steps[i])
    ensures |steps| + WorkLeft(Exec(s, steps)) <= WorkLeft(s)
    decreases steps
  {
    if steps == [] {
    } else {
      assert !Environment(steps[0]);
      StepKeepsInvariant(s, steps[0]);
      StepUsesUpWork(s, steps[0]);
      ServingBound(Next(s, steps[0]), steps[1..]);
    }
  }

  lemma QuietPoolHoldsNothing(s: Engine, x: Target)
    requires Invariant(s) && !s.Cancelled() && forall step :: Enabled(s, step) ==> Environment(step)
    ensures Accounted(s, x) == InBatches(s.handed, x) + InResults(s.unencodable, x)
  {
    if s.targetChan != [] || s.resultChan != [] || Batch(s.publisher) != [] ||
       (exists w :: 0 <= w < |s.workers| && (s.workers[w].Probing? || s.workers[w].Delivering?)) {
      ServingIsNotStuck(s);
    }
    WorkersHoldNothing(s.workers, x);
  }

  predicate HandedOverAll(s: Engine, x: Target) {
    InTargets(s.accepted, x) == InBatches(s.handed, x) + InResults(s.unencodable, x)
  }

  lemma QuietPoolHandedOver(s: Engine, x: Target)
    requires Invariant(s) && Balanced(s, x)
    requires !s.Cancelled() && forall step :: Enabled(s, step) ==> Environment(step)
    ensures HandedOverAll(s, x)
  {
    QuietPoolHoldsNothing(s, x);
  }

  lemma BalancedThroughout(configured: int, incoming: seq<Message>, before: seq<Step>, after: seq<Step>, x: Target)
    requires Executable(Initial(configured, incoming), before)
    requires Executable(Exec(Initial(configured, incoming), before), after)
    ensures Balanced(Exec(Exec(Initial(configured, incoming), before), after), x)
  {
    var s0 := Initial(configured, incoming);
    WorkersHoldNothing(s0.workers, x);
    RunKeepsBalance(s0, before, x);
    RunKeepsBalance(Exec(s0, before), after, x);
  }

  /** Serving makes progress: without a new message, a read error or the signal, no
      run is longer than the work that was left; and where nothing else can
      happen before the signal, every accepted target has exactly one result with
      the writer, or was not encodable. */
  lemma ServingSettles(configured: int, incoming: seq<Message>, before: seq<Step>, after: seq<Step>)
    requires Executable(Initial(configured, incoming), before)
    requires Executable(Exec(Initial(configured, incoming), before), after)
    requires forall i :: 0 <= i < |after| ==> !Environment(after[i])
    ensures var mid := Exec(Initial(configured, incoming), before);
            var end := Exec(mid, after);
            && |after| <= WorkLeft(mid)
            && (!end.Cancelled() && (forall step :: Enabled(end, step) ==> Environment(step)) ==>
                  forall x :: HandedOverAll(end, x))
  {
    var mid := Exec(Initial(configured, incoming), before);
    InitialInvariant(configured, incoming);
    RunKeepsInvariant(Initial(configured, incoming), before);
    ServingBound(mid, after);
    RunKeepsInvariant(mid, after);
    var end := Exec(mid, after);
    if !end.Cancelled() && forall step :: Enabled(end, step) ==> Environment(step) {
      forall x ensures HandedOverAll(end, x) {
        BalancedThroughout(configured, incoming, before, after, x);
        QuietPoolHandedOver(end, x);
      }
    }
  }

  /** After the signal: until the drain is complete some goroutine can move. */
  lemma DrainingIsNotStuck(s: Engine)
    requires Invariant(s) && s.Cancelled() && !s.shutdown.Complete?
    ensures exists step :: Enabled(s, step)
  {
    match s.shutdown
    case AwaitingReader =>
      match s.reader {
        case Reading => assert Enabled(s, ReadError);
        case Offering(_) => assert Enabled(s, AbandonOffer);
        case Stopped => assert Enabled(s, SeeReaderDone);
      }
    case ClosingTargets => assert Enabled(s, CloseTargets);
    case AwaitingWorkers =>
      if w :| 0 <= w < |s.workers| && !s.workers[w].Exited? {
        if s.workers[w].Idle? {
          assert Enabled(s, WorkerStep(s, w));
        } else {
          BusyWorkerMoves(s, w);
        }
      } else {
        assert Enabled(s, SeeWorkersDone);
      }
    case ClosingResults => assert Enabled(s, CloseResults);
    case AwaitingPublisher => assert Enabled(s, PublisherStep(s));
  }

  /** Shutdown terminates: after the signal no run is longer than the work that
      was left, and a run that cannot be continued has drained everything. */
  lemma ShutdownTerminates(configured: int, incoming: seq<Message>, before: seq<Step>, after: seq<Step>)
    requires Executable(Initial(configured, incoming), before)
    requires Exec(Initial(configured, incoming), before).Cancelled()
    requires Executable(Exec(Initial(configured, incoming), before), after)
    ensures var mid := Exec(Initial(configured, incoming), before);
            var end := Exec(mid, after);
            && |after| <= WorkLeft(mid)
            && ((forall step :: !Enabled(end, step)) ==> end.shutdown.Complete?)
  {
    InitialInvariant(configured, incoming);
    RunKeepsInvariant(Initial(configured, incoming), before);
    var mid := Exec(Initial(configured, incoming), before);
    DrainBound(mid, after);
    RunKeepsInvariant(mid, after);
    StaysCancelled(mid, after);
    var end := Exec(mid, after);
    if !end.shutdown.Complete? {
      DrainingIsNotStuck(end);
    }
  }

  lemma {:induction false} StaysCancelled(s: Engine, steps: seq<Step>)
    requires s.Cancelled() && Executable(s, steps)
    ensures Exec(s, steps).Cancelled()
    decreases steps
  {
    if steps == [] {
    } else {
      StepStaysCancelled(s, steps[0]);
      StaysCancelled(Next(s, steps[0]), steps[1..]);
    }
  }
}
