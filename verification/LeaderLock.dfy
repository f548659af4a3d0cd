/**
 The leader lock: one Redis key per job name, set with NX and a time to live,
 not renewed, released by a compare-and-delete on the process identity. Any
 number of processes, each possibly with several invocations under way.
 */
module LeaderLock {
  import opened Common

  datatype Lock = Lock(owner: nat, expiresAt: int)

  datatype Invocation = Invocation(process: nat, acquiredAt: int)

  // One lock name. `lastAcquired` is when the key was last set.
  datatype World = World(clock: int, key: Option<Lock>, running: map<nat, Invocation>, lastAcquired: Option<int>)

  datatype Step =
    | Wait(ms: nat)
    | Acquire(invocation: nat, process: nat)
    | Finish(invocation: nat, redisUp: bool)

  predicate Live(w: World) { w.key.Some? && w.clock < w.key.value.expiresAt }

  predicate Enabled(w: World, step: Step) {
    match step
    case Wait(_) => true
    case Acquire(i, _) => i !in w.running
    case Finish(i, _) => i in w.running
  }

  // SET key process PX ttl NX; without the lock the invocation just returns.
  function Acquired(w: World, i: nat, process: nat, ttl: nat): World {
    if Live(w) then w
    else w.(key := Some(Lock(process, w.clock + ttl)),
            running := w.running[i := Invocation(process, w.clock)],
            lastAcquired := Some(w.clock))
  }

  // The release script: delete the key if it still holds this process.
  function Released(w: World, process: nat): World {
    if Live(w) && w.key.value.owner == process then w.(key := None) else w
  }

  function Next(w: World, step: Step, ttl: nat): World
    requires Enabled(w, step)
  {
    match step
    case Wait(ms) => w.(clock := w.clock + ms)
    case Acquire(i, process) => Acquired(w, i, process, ttl)
    case Finish(i, redisUp) =>
      var done := w.(running := w.running - {i});
      if redisUp then Released(done, w.running[i].process) else done
  }

  predicate Executable(w: World, steps: seq<Step>, ttl: nat)
    decreases |steps|, 0
  {
    steps == [] ||
    (Executable(w, steps[..|steps| - 1], ttl) &&
     Enabled(Exec(w, steps[..|steps| - 1], ttl), steps[|steps| - 1]))
  }

  function Exec(w: World, steps: seq<Step>, ttl: nat): World
    requires Executable(w, steps, ttl)
    decreases |steps|, 1
  {
    if steps == [] then w
    else Next(Exec(w, steps[..|steps| - 1], ttl), steps[|steps| - 1], ttl)
  }

  function Start(clock: int): World { World(clock, None, map[], None) }

  predicate InTime(w: World, i: nat, ttl: nat) {
    i in w.running && w.clock < w.running[i].acquiredAt + ttl
  }

  predicate Exclusive(w: World) {
    forall i, j :: i in w.running && j in w.running ==> i == j
  }

  ghost predicate ExclusiveInTime(w: World, ttl: nat) {
    forall i, j :: InTime(w, i, ttl) && InTime(w, j, ttl) ==> i == j
  }

  // Whoever is in time holds the key.
  ghost predicate HoldsKey(w: World, ttl: nat) {
    forall i :: InTime(w, i, ttl) ==>
      w.key == Some(Lock(w.running[i].process, w.running[i].acquiredAt + ttl))
  }

  predicate KeyIsRecent(w: World, ttl: nat) {
    && (w.key.Some? ==> w.lastAcquired.Some? && w.key.value.expiresAt == w.lastAcquired.value + ttl)
    && (w.lastAcquired.Some? ==> w.lastAcquired.value <= w.clock)
    && (forall i :: i in w.running ==> w.running[i].acquiredAt <= w.clock)
  }

  // ------------------------------------------- With every job in its lease

  // Every invocation is finished before its lease is over.
  predicate Timely(w: World, steps: seq<Step>, ttl: nat)
    requires Executable(w, steps, ttl)
    decreases |steps|
  {
    (steps != [] ==> Timely(w, steps[..|steps| - 1], ttl)) &&
    forall i :: i in Exec(w, steps, ttl).running ==> InTime(Exec(w, steps, ttl), i, ttl)
  }

  lemma {:induction false} TimelyState(clock: int, steps: seq<Step>, ttl: nat)
    requires Executable(Start(clock), steps, ttl) && Timely(Start(clock), steps, ttl)
    ensures var w := Exec(Start(clock), steps, ttl); Exclusive(w) && HoldsKey(w, ttl)
  {
    if steps == [] {
    } else {
      TimelyState(clock, steps[..|steps| - 1], ttl);
    }
  }

  /** If every invocation gets from acquire to release within the time to live,
      no two of them ever overlap, whatever process they belong to. */
  lemma LeaseIsExclusive(clock: int, steps: seq<Step>, ttl: nat)
    requires Executable(Start(clock), steps, ttl) && Timely(Start(clock), steps, ttl)
    ensures Exclusive(Exec(Start(clock), steps, ttl))
  {
    TimelyState(clock, steps, ttl);
  }

  // ------------------------------------------------ Without that hypothesis

  lemma {:induction false} KeyState(clock: int, steps: seq<Step>, ttl: nat)
    requires Executable(Start(clock), steps, ttl)
    ensures KeyIsRecent(Exec(Start(clock), steps, ttl), ttl)
  {
    if steps == [] {
    } else {
      KeyState(clock, steps[..|steps| - 1], ttl);
    }
  }

  /** A dead holder never blocks the job for long: the key is free again within
      one time to live of the last acquire. And a release leaves the lock of any
      other process alone. */
  lemma LockExpiresAndReleaseIsOwn(clock: int, steps: seq<Step>, ttl: nat, invocation: nat, redisUp: bool)
    requires Executable(Start(clock), steps, ttl)
    ensures var w := Exec(Start(clock), steps, ttl);
      && (Live(w) ==> w.lastAcquired.Some? && w.clock < w.lastAcquired.value + ttl)
      && (invocation in w.running && Live(w) && w.key.value.owner != w.running[invocation].process ==>
            Next(w, Finish(invocation, redisUp), ttl).key == w.key)
  {
    KeyState(clock, steps, ttl);
  }

  // In the whole run, whoever is within its lease holds the key.
  ghost predicate AlwaysHeld(w: World, steps: seq<Step>, ttl: nat)
    requires Executable(w, steps, ttl)
    decreases |steps|
  {
    (steps != [] ==> AlwaysHeld(w, steps[..|steps| - 1], ttl)) && HoldsKey(Exec(w, steps, ttl), ttl)
  }

  // What a process can see before it releases: another job of its own is within
  // its lease.
  predicate HasSuccessor(w: World, i: nat, ttl: nat)
    requires i in w.running
  {
    exists j :: j in w.running && j != i && w.running[j].process == w.running[i].process && InTime(w, j, ttl)
  }

  predicate NeverReleasesSuccessor(w: World, steps: seq<Step>, ttl: nat)
    requires Executable(w, steps, ttl)
    decreases |steps|
  {
    steps == [] ||
    (NeverReleasesSuccessor(w, steps[..|steps| - 1], ttl) &&
     var before, last := Exec(w, steps[..|steps| - 1], ttl), steps[|steps| - 1];
     last.Finish? && last.redisUp ==> !HasSuccessor(before, last.invocation, ttl))
  }

  lemma StepKeepsKeyIff(w: World, step: Step, ttl: nat)
    requires Enabled(w, step) && KeyIsRecent(w, ttl) && HoldsKey(w, ttl)
    ensures HoldsKey(Next(w, step, ttl), ttl) <==>
            !(step.Finish? && step.redisUp && HasSuccessor(w, step.invocation, ttl))
  {
    if step.Finish? && step.redisUp && HasSuccessor(w, step.invocation, ttl) {
      var j :| j in w.running && j != step.invocation && InTime(w, j, ttl) &&
               w.running[j].process == w.running[step.invocation].process;
      assert InTime(Next(w, step, ttl), j, ttl);
    }
  }

  /** Over every run: each job within its lease holds the key throughout, if and
      only if no process ever releases while another of its own jobs is within
      its lease. */
  lemma {:induction false} LockIsHeldIff(clock: int, steps: seq<Step>, ttl: nat)
    requires Executable(Start(clock), steps, ttl)
    ensures AlwaysHeld(Start(clock), steps, ttl) <==> NeverReleasesSuccessor(Start(clock), steps, ttl)
  {
    if steps == [] {
    } else {
      var front := steps[..|steps| - 1];
      LockIsHeldIff(clock, front, ttl);
      KeyState(clock, front, ttl);
      if AlwaysHeld(Start(clock), front, ttl) {
        StepKeepsKeyIff(Exec(Start(clock), front, ttl), steps[|steps| - 1], ttl);
      }
    }
  }

  // While the key is held by a job within its lease, nobody else acquires.
  lemma StepKeepsExclusion(w: World, step: Step, ttl: nat)
    requires Enabled(w, step) && HoldsKey(w, ttl) && ExclusiveInTime(w, ttl)
    ensures ExclusiveInTime(Next(w, step, ttl), ttl)
  {
    var after := Next(w, step, ttl);
    forall i, j | InTime(after, i, ttl) && InTime(after, j, ttl)
      ensures i == j
    {
      assert (i in w.running && after.running[i] == w.running[i]) ==> InTime(w, i, ttl);
      assert (j in w.running && after.running[j] == w.running[j]) ==> InTime(w, j, ttl);
    }
  }

  /** Jobs may overstay: as long as none releases its successor's lock, those
      that are within their lease exclude each other. */
  lemma {:induction false} InTimeJobsExclude(clock: int, steps: seq<Step>, ttl: nat)
    requires Executable(Start(clock), steps, ttl) && NeverReleasesSuccessor(Start(clock), steps, ttl)
    ensures ExclusiveInTime(Exec(Start(clock), steps, ttl), ttl)
  {
    if steps == [] {
    } else {
      var front := steps[..|steps| - 1];
      InTimeJobsExclude(clock, front, ttl);
      LockIsHeldIff(clock, front, ttl);
      StepKeepsExclusion(Exec(Start(clock), front, ttl), steps[|steps| - 1], ttl);
    }
  }

  /** Step by step: the lock is won exactly if there is no key or it has expired, and
      then lasts one time to live; a release frees the key if it is unexpired and
      the process's own, and leaves it alone otherwise or with Redis down. */
  lemma LockByTheKey(w: World, i: nat, process: nat, ttl: nat)
    ensures var t := Acquired(w, i, process, ttl);
      if w.key.None? || w.clock >= w.key.value.expiresAt
      then t.key.Some? && t.key.value.owner == process && t.key.value.expiresAt == w.clock + ttl &&
           t.running == w.running[i := Invocation(process, w.clock)]
      else t == w
    ensures i in w.running ==>
      var freed, kept := Next(w, Finish(i, true), ttl), Next(w, Finish(i, false), ttl);
      && freed.running == w.running - {i} && kept.running == w.running - {i}
      && kept.key == w.key
      && freed.key == if w.key.Some? && w.clock < w.key.value.expiresAt && w.key.value.owner == w.running[i].process
                      then None else w.key
  {
  }

  // No process acquires while an earlier invocation of its own still runs.
  predicate OneAtATime(w: World, steps: seq<Step>, ttl: nat)
    requires Executable(w, steps, ttl)
    decreases |steps|
  {
    steps == [] ||
    (OneAtATime(w, steps[..|steps| - 1], ttl) &&
     var before := Exec(w, steps[..|steps| - 1], ttl);
     steps[|steps| - 1].Acquire? ==>
       forall i :: i in before.running ==> before.running[i].process != steps[|steps| - 1].process)
  }

  predicate OnePerProcess(w: World) {
    forall i, j :: i in w.running && j in w.running && w.running[i].process == w.running[j].process ==> i == j
  }

  /** It is enough that no process starts a job while its previous one runs. */
  lemma {:induction false} OneAtATimeSuffices(clock: int, steps: seq<Step>, ttl: nat)
    requires Executable(Start(clock), steps, ttl) && OneAtATime(Start(clock), steps, ttl)
    ensures OnePerProcess(Exec(Start(clock), steps, ttl)) && NeverReleasesSuccessor(Start(clock), steps, ttl)
  {
    if steps == [] {
    } else {
      OneAtATimeSuffices(clock, steps[..|steps| - 1], ttl);
    }
  }

  function Takeover(ttl: nat): seq<Step> {
    [Acquire(0, 1), Wait(ttl), Acquire(1, 1), Finish(0, true), Acquire(2, 2)]
  }

  lemma ExecOneMore(w: World, steps: seq<Step>, step: Step, ttl: nat)
    requires Executable(w, steps, ttl) && Enabled(Exec(w, steps, ttl), step)
    ensures Executable(w, steps + [step], ttl)
    ensures Exec(w, steps + [step], ttl) == Next(Exec(w, steps, ttl), step, ttl)
  {
    assert (steps + [step])[..|steps|] == steps;
  }

  /** The identity is the process, not the invocation: an overstaying job of a
      process releases the fresh lock of its own successor, and a third one
      starts beside it, both well within their lease. */
  lemma OverstayingJobReleasesItsSuccessor(clock: int, ttl: nat)
    requires ttl > 0
    ensures Executable(Start(clock), Takeover(ttl), ttl)
    ensures !NeverReleasesSuccessor(Start(clock), Takeover(ttl), ttl)
    ensures var w := Exec(Start(clock), Takeover(ttl), ttl); InTime(w, 1, ttl) && InTime(w, 2, ttl)
  {
    var w := Start(clock);
    ExecOneMore(w, [], Acquire(0, 1), ttl);
    var s1 := [] + [Acquire(0, 1)];
    ExecOneMore(w, s1, Wait(ttl), ttl);
    var s2 := s1 + [Wait(ttl)];
    ExecOneMore(w, s2, Acquire(1, 1), ttl);
    var s3 := s2 + [Acquire(1, 1)];
    ExecOneMore(w, s3, Finish(0, true), ttl);
    var s4 := s3 + [Finish(0, true)];
    ExecOneMore(w, s4, Acquire(2, 2), ttl);
    assert Takeover(ttl) == s4 + [Acquire(2, 2)];
    if NeverReleasesSuccessor(w, Takeover(ttl), ttl) {
      InTimeJobsExclude(clock, Takeover(ttl), ttl);
    }
  }

  // -------------------------------------------------- The code as written

  class LockClient {
    const process: nat
    var clock: int
    var key: Option<Lock>

    constructor (process: nat, clock: int)
      ensures this.process == process && this.clock == clock && key.None?
    {
      this.process, this.clock := process, clock;
      key := None;
    }

    ghost function State(): World
      reads this
    {
      World(clock, key, map[], None)
    }

    // A Redis failure counts as not being the leader.
    method TryAcquire(ttl: nat, redisUp: bool) returns (acquired: bool)
      modifies this`key
      ensures acquired == (redisUp && !old(Live(State())))
      ensures key == if redisUp then Acquired(old(State()), 0, process, ttl).key else old(key)
    {
      if !redisUp { return false; }
      if key.Some? && clock < key.value.expiresAt { return false; }
      key := Some(Lock(process, clock + ttl));
      return true;
    }

    method Release()
      modifies this`key
      ensures State() == Released(old(State()), process)
    {
      if key.Some? && clock < key.value.expiresAt && key.value.owner == process {
        key := None;
      }
    }
  }
}
