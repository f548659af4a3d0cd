/**
 The consumer of one results partition: delivery is at least once, a marker
 per (target, timestamp) is set before the result is applied, and offsets are
 resolved one by one. A restart redelivers from the last committed offset, a
 failed apply from the first unresolved one. Markers are taken to outlive every
 redelivery.
 */
module MetricsConsumer {
  import opened Common
  import opened MonitorEngine

  datatype Key = Key(target: nat, timestamp: int)

  // JSON null parses, and then throws wherever a field of it is read.
  datatype Message = NoValue | Unparseable | Null | Ping(key: Key, result: PingResult)

  datatype Phase = AtHead | Marked | Landed

  datatype Application = Application(offset: nat, at: int)

  datatype Consumer = Consumer(
    committed: nat,
    position: nat,
    phase: Phase,
    marks: set<Key>,
    tables: map<nat, Rows>,
    // What happened so far: how far the log was ever read, what was applied
    // and when, and which marked results never got applied.
    frontier: nat,
    applied: seq<Application>,
    lost: set<nat>)

  datatype Step =
    | Take            // SET NX, or park a message that cannot be applied
    | Land(at: int)   // applyCheckResult commits
    | Skip            // monitor gone or inactive
    | Fail            // lookup or apply throws: break out of the batch
    | Resolve
    | Commit
    | Restart         // crash, rebalance, or an error thrown out of the batch

  predicate IsActive(tables: map<nat, Rows>, target: nat) {
    target in tables && tables[target].monitor.isActive
  }

  predicate Enabled(log: seq<Message>, s: Consumer, step: Step) {
    match step
    case Take => s.phase.AtHead? && s.position < |log| && !log[s.position].Null?
    case Land(_) => s.phase.Marked? && s.position < |log| && log[s.position].Ping? &&
                    IsActive(s.tables, log[s.position].key.target)
    case Skip => s.phase.Marked? && s.position < |log| && log[s.position].Ping? &&
                 !IsActive(s.tables, log[s.position].key.target)
    case Fail => s.phase.Marked?
    case Resolve => s.phase.Landed?
    case Commit => s.phase.AtHead?
    case Restart => true
  }

  function Reached(s: Consumer, offset: nat): nat {
    if offset < s.frontier then s.frontier else offset + 1
  }

  function GivenUp(s: Consumer): set<nat> {
    if s.phase.Marked? then s.lost + {s.position} else s.lost
  }

  function Next(log: seq<Message>, s: Consumer, step: Step): Consumer
    requires Enabled(log, s, step)
  {
    match step
    case Take =>
      var m := log[s.position];
      if !m.Ping? || m.key in s.marks
      then s.(position := s.position + 1, frontier := Reached(s, s.position))
      else s.(phase := Marked, marks := s.marks + {m.key}, frontier := Reached(s, s.position))
    case Land(at) =>
      var m := log[s.position];
      s.(phase := Landed,
         tables := s.tables[m.key.target := Checked(s.tables[m.key.target], m.result, at)],
         applied := s.applied + [Application(s.position, at)])
    case Skip => s.(phase := AtHead, position := s.position + 1)
    case Fail => s.(phase := AtHead, lost := GivenUp(s))
    case Resolve => s.(phase := AtHead, position := s.position + 1)
    case Commit => s.(committed := s.position)
    case Restart => s.(phase := AtHead, position := s.committed, lost := GivenUp(s))
  }

  predicate Executable(log: seq<Message>, s: Consumer, steps: seq<Step>)
    decreases |steps|, 0
  {
    steps == [] ||
    (Executable(log, s, steps[..|steps| - 1]) &&
     Enabled(log, Exec(log, s, steps[..|steps| - 1]), steps[|steps| - 1]))
  }

  function Exec(log: seq<Message>, s: Consumer, steps: seq<Step>): Consumer
    requires Executable(log, s, steps)
    decreases |steps|, 1
  {
    if steps == [] then s
    else Next(log, Exec(log, s, steps[..|steps| - 1]), steps[|steps| - 1])
  }

  function Initial(start: nat, tables: map<nat, Rows>): Consumer {
    Consumer(start, start, AtHead, {}, tables, start, [], {})
  }

  // --------------------------------------------------- One in-order pass

  function KeyAt(log: seq<Message>, o: nat): Option<Key> {
    if o < |log| && log[o].Ping? then Some(log[o].key) else None
  }

  predicate Occurs(log: seq<Message>, from: nat, upto: nat, key: Key) {
    exists o :: from <= o < upto && o < |log| && log[o].Ping? && log[o].key == key
  }

  // The first message with its key since `start`, for an active monitor.
  predicate First(log: seq<Message>, start: nat, tables: map<nat, Rows>, o: nat) {
    start <= o < |log| && log[o].Ping? && IsActive(tables, log[o].key.target) &&
    !Occurs(log, start, o, log[o].key)
  }

  // Folding applyCheckResult once over applications.
  function Fold(log: seq<Message>, tables: map<nat, Rows>, applied: seq<Application>): map<nat, Rows> {
    if applied == [] then tables
    else
      var before := Fold(log, tables, applied[..|applied| - 1]);
      var last := applied[|applied| - 1];
      if last.offset < |log| && log[last.offset].Ping? && log[last.offset].key.target in before then
        var m := log[last.offset];
        before[m.key.target := Checked(before[m.key.target], m.result, last.at)]
      else before
  }

  predicate InFlight(s: Consumer, o: nat) { s.phase.Marked? && o == s.position }

  // Where the consumer stands, and what the markers say.
  ghost predicate Positioned(log: seq<Message>, start: nat, s: Consumer) {
    && start <= s.committed <= s.position <= s.frontier <= (if |log| < start then start else |log|)
    && (!s.phase.AtHead? ==> s.position + 1 == s.frontier)
    && (s.phase.Marked? ==> log[s.position].Ping? && !Occurs(log, start, s.position, log[s.position].key))
    && (forall k :: k in s.marks <==> Occurs(log, start, s.frontier, k))
  }

  // Applied results: first occurrences in offset order, and none of them lost.
  predicate AppliedInOrder(log: seq<Message>, start: nat, tables: map<nat, Rows>, s: Consumer) {
    && (forall i, j :: 0 <= i < j < |s.applied| ==> s.applied[i].offset < s.applied[j].offset)
    && (forall i :: 0 <= i < |s.applied| ==>
          s.applied[i].offset < s.frontier && First(log, start, tables, s.applied[i].offset) &&
          s.applied[i].offset !in s.lost && !InFlight(s, s.applied[i].offset))
  }

  // First occurrences so far: applied, lost or in flight.
  predicate Covered(log: seq<Message>, start: nat, tables: map<nat, Rows>, s: Consumer) {
    forall o :: start <= o < s.frontier && First(log, start, tables, o) ==>
      WasApplied(s, o) || o in s.lost || InFlight(s, o)
  }

  // What the record of applied and lost results says.
  predicate Recorded(log: seq<Message>, start: nat, tables: map<nat, Rows>, s: Consumer) {
    && AppliedInOrder(log, start, tables, s)
    && (forall o :: o in s.lost ==> o < s.frontier && !InFlight(s, o))
    && Covered(log, start, tables, s)
  }

  ghost predicate Invariant(log: seq<Message>, start: nat, tables: map<nat, Rows>, s: Consumer) {
    && Positioned(log, start, s)
    && Recorded(log, start, tables, s)
    && (forall t :: IsActive(s.tables, t) <==> IsActive(tables, t))
    && s.tables == Fold(log, tables, s.applied)
  }

  predicate WasApplied(s: Consumer, o: nat) {
    exists i :: 0 <= i < |s.applied| && s.applied[i].offset == o
  }

  lemma OccursOneMore(log: seq<Message>, start: nat, n: nat, k: Key)
    requires start <= n < |log|
    ensures Occurs(log, start, n + 1, k) <==> Occurs(log, start, n, k) || (log[n].Ping? && log[n].key == k)
  {
    if Occurs(log, start, n, k) {
      var o :| start <= o < n && o < |log| && log[o].Ping? && log[o].key == k;
      assert start <= o < n + 1;
    }
  }

  lemma StillApplied(s: Consumer, t: Consumer, o: nat)
    requires s.applied <= t.applied && WasApplied(s, o)
    ensures WasApplied(t, o)
  {
    var i :| 0 <= i < |s.applied| && s.applied[i].offset == o;
    assert t.applied[i].offset == o;
  }

  lemma TakeKeepsPosition(log: seq<Message>, start: nat, s: Consumer)
    requires Positioned(log, start, s) && Enabled(log, s, Take)
    ensures Positioned(log, start, Next(log, s, Take))
  {
    var t := Next(log, s, Take);
    var m := log[s.position];
    forall k ensures k in t.marks <==> Occurs(log, start, t.frontier, k) {
      if s.position == s.frontier {
        OccursOneMore(log, start, s.position, k);
      }
    }
    if m.Ping? && s.position < s.frontier {
      assert Occurs(log, start, s.frontier, m.key);
    }
  }

  lemma TakeKeepsRecord(log: seq<Message>, start: nat, tables: map<nat, Rows>, s: Consumer)
    requires Positioned(log, start, s) && Recorded(log, start, tables, s) && Enabled(log, s, Take)
    requires Positioned(log, start, Next(log, s, Take))
    ensures Recorded(log, start, tables, Next(log, s, Take))
  {
    var t := Next(log, s, Take);
    forall o | start <= o < t.frontier && First(log, start, tables, o)
      ensures WasApplied(t, o) || o in t.lost || InFlight(t, o)
    {
      if o < s.frontier && WasApplied(s, o) {
        StillApplied(s, t, o);
      }
    }
  }

  lemma TakeKeepsInvariant(log: seq<Message>, start: nat, tables: map<nat, Rows>, s: Consumer)
    requires Invariant(log, start, tables, s) && Enabled(log, s, Take)
    ensures Invariant(log, start, tables, Next(log, s, Take))
  {
    TakeKeepsPosition(log, start, s);
    TakeKeepsRecord(log, start, tables, s);
  }

  lemma LandExtendsFold(log: seq<Message>, tables: map<nat, Rows>, s: Consumer, at: int)
    requires Enabled(log, s, Land(at)) && s.tables == Fold(log, tables, s.applied)
    ensures var t := Next(log, s, Land(at)); t.tables == Fold(log, tables, t.applied)
    ensures forall id :: IsActive(Next(log, s, Land(at)).tables, id) <==> IsActive(s.tables, id)
  {
    var last := Application(s.position, at);
    assert (s.applied + [last])[..|s.applied|] == s.applied;
  }

  lemma LandKeepsOrder(log: seq<Message>, start: nat, tables: map<nat, Rows>, s: Consumer, t: Consumer, at: int)
    requires AppliedInOrder(log, start, tables, s) && First(log, start, tables, s.position)
    requires s.phase.Marked? && s.position + 1 == s.frontier && s.position !in s.lost
    requires forall i :: 0 <= i < |s.applied| ==> s.applied[i].offset < s.position
    requires t.applied == s.applied + [Application(s.position, at)]
    requires t.phase.Landed? && t.frontier == s.frontier && t.lost == s.lost && t.position == s.position
    ensures AppliedInOrder(log, start, tables, t)
  {
  }

  lemma LandKeepsCover(log: seq<Message>, start: nat, tables: map<nat, Rows>, s: Consumer, t: Consumer, at: int)
    requires Covered(log, start, tables, s)
    requires t.applied == s.applied + [Application(s.position, at)] && t.frontier == s.frontier && t.lost == s.lost
    ensures Covered(log, start, tables, t)
  {
    forall o | start <= o < t.frontier && First(log, start, tables, o)
      ensures WasApplied(t, o) || o in t.lost
    {
      if WasApplied(s, o) {
        StillApplied(s, t, o);
      } else {
        assert t.applied[|s.applied|].offset == s.position;
      }
    }
  }

  lemma LandKeepsRecord(log: seq<Message>, start: nat, tables: map<nat, Rows>, s: Consumer, t: Consumer, at: int)
    requires Recorded(log, start, tables, s) && First(log, start, tables, s.position)
    requires s.phase.Marked? && s.position + 1 == s.frontier
    requires t.applied == s.applied + [Application(s.position, at)]
    requires t.phase.Landed? && t.frontier == s.frontier && t.lost == s.lost && t.position == s.position
    ensures Recorded(log, start, tables, t)
  {
    LandKeepsOrder(log, start, tables, s, t, at);
    LandKeepsCover(log, start, tables, s, t, at);
  }

  lemma LandKeepsInvariant(log: seq<Message>, start: nat, tables: map<nat, Rows>, s: Consumer, at: int)
    requires Invariant(log, start, tables, s) && Enabled(log, s, Land(at))
    ensures Invariant(log, start, tables, Next(log, s, Land(at)))
  {
    LandExtendsFold(log, tables, s, at);
    assert IsActive(tables, log[s.position].key.target);
    LandKeepsRecord(log, start, tables, s, Next(log, s, Land(at)), at);
  }

  // What counts and was lost or in flight still is, and nothing else.
  lemma RecordCarriesOver(log: seq<Message>, start: nat, tables: map<nat, Rows>, s: Consumer, t: Consumer)
    requires Recorded(log, start, tables, s) && t.applied == s.applied && t.frontier == s.frontier
    requires forall o :: First(log, start, tables, o) && (o in s.lost || InFlight(s, o)) ==>
                           o in t.lost || InFlight(t, o)
    requires forall o :: o in t.lost || InFlight(t, o) ==> o in s.lost || InFlight(s, o)
    requires forall o :: o in t.lost ==> o < t.frontier && !InFlight(t, o)
    ensures Recorded(log, start, tables, t)
  {
    forall o | start <= o < t.frontier && First(log, start, tables, o)
      ensures WasApplied(t, o) || o in t.lost || InFlight(t, o)
    {
      if WasApplied(s, o) {
        StillApplied(s, t, o);
      }
    }
  }

  lemma LeavingKeepsInvariant(log: seq<Message>, start: nat, tables: map<nat, Rows>, s: Consumer, step: Step)
    requires Invariant(log, start, tables, s) && Enabled(log, s, step)
    requires step.Fail? || step.Restart?
    ensures Invariant(log, start, tables, Next(log, s, step))
  {
    RecordCarriesOver(log, start, tables, s, Next(log, s, step));
  }

  lemma MovingKeepsInvariant(log: seq<Message>, start: nat, tables: map<nat, Rows>, s: Consumer, step: Step)
    requires Invariant(log, start, tables, s) && Enabled(log, s, step)
    requires step.Skip? || step.Resolve? || step.Commit?
    ensures Invariant(log, start, tables, Next(log, s, step))
  {
    RecordCarriesOver(log, start, tables, s, Next(log, s, step));
  }

  lemma StepKeepsInvariant(log: seq<Message>, start: nat, tables: map<nat, Rows>, s: Consumer, step: Step)
    requires Invariant(log, start, tables, s) && Enabled(log, s, step)
    ensures Invariant(log, start, tables, Next(log, s, step))
  {
    match step
    case Take => TakeKeepsInvariant(log, start, tables, s);
    case Land(at) => LandKeepsInvariant(log, start, tables, s, at);
    case Fail | Restart => LeavingKeepsInvariant(log, start, tables, s, step);
    case Skip | Resolve | Commit => MovingKeepsInvariant(log, start, tables, s, step);
  }

  lemma {:induction false} RunKeepsInvariant(log: seq<Message>, start: nat, tables: map<nat, Rows>, steps: seq<Step>)
    requires start <= |log| && Executable(log, Initial(start, tables), steps)
    ensures Invariant(log, start, tables, Exec(log, Initial(start, tables), steps))
  {
    if steps == [] {
    } else {
      var front := steps[..|steps| - 1];
      RunKeepsInvariant(log, start, tables, front);
      StepKeepsInvariant(log, start, tables, Exec(log, Initial(start, tables), front), steps[|steps| - 1]);
    }
  }

  lemma FirstsDiffer(log: seq<Message>, start: nat, tables: map<nat, Rows>, a: nat, b: nat)
    requires First(log, start, tables, a) && First(log, start, tables, b) && a != b
    ensures KeyAt(log, a) != KeyAt(log, b)
  {
    var lo, hi := if a < b then a else b, if a < b then b else a;
    var k := log[hi].key;
    assert !Occurs(log, start, hi, k);
  }

  /** Whatever is redelivered, results are applied in offset order, at most one
      per (target, timestamp), and the tables are the fold over what was
      applied. */
  lemma RedeliveryAppliesInOrderOnce(log: seq<Message>, start: nat, tables: map<nat, Rows>, steps: seq<Step>)
    requires start <= |log| && Executable(log, Initial(start, tables), steps)
    ensures var s := Exec(log, Initial(start, tables), steps);
      && s.tables == Fold(log, tables, s.applied)
      && (forall i :: 0 <= i < |s.applied| ==> First(log, start, tables, s.applied[i].offset))
      && (forall i, j :: 0 <= i < j < |s.applied| ==>
            s.applied[i].offset < s.applied[j].offset &&
            KeyAt(log, s.applied[i].offset) != KeyAt(log, s.applied[j].offset))
  {
    RunKeepsInvariant(log, start, tables, steps);
    var s := Exec(log, Initial(start, tables), steps);
    forall i, j | 0 <= i < j < |s.applied|
      ensures KeyAt(log, s.applied[i].offset) != KeyAt(log, s.applied[j].offset)
    {
      FirstsDiffer(log, start, tables, s.applied[i].offset, s.applied[j].offset);
    }
  }

  // A failure between the marker and the commit, for a result that counts.
  predicate Loses(log: seq<Message>, s: Consumer, step: Step) {
    s.phase.Marked? && (step.Fail? || step.Restart?) && s.position < |log| && log[s.position].Ping? &&
    IsActive(s.tables, log[s.position].key.target)
  }

  predicate Clean(log: seq<Message>, s: Consumer, steps: seq<Step>)
    requires Executable(log, s, steps)
  {
    steps == [] ||
    (Clean(log, s, steps[..|steps| - 1]) &&
     !Loses(log, Exec(log, s, steps[..|steps| - 1]), steps[|steps| - 1]))
  }

  lemma {:induction false} LosesNothingIff(log: seq<Message>, start: nat, tables: map<nat, Rows>, steps: seq<Step>)
    requires start <= |log| && Executable(log, Initial(start, tables), steps)
    ensures Clean(log, Initial(start, tables), steps) <==>
            forall o :: o in Exec(log, Initial(start, tables), steps).lost ==> !First(log, start, tables, o)
  {
    if steps == [] {
    } else {
      var front := steps[..|steps| - 1];
      var before := Exec(log, Initial(start, tables), front);
      LosesNothingIff(log, start, tables, front);
      RunKeepsInvariant(log, start, tables, front);
      var after := Next(log, before, steps[|steps| - 1]);
      assert before.lost <= after.lost;
      if Loses(log, before, steps[|steps| - 1]) {
        assert before.position in after.lost && First(log, start, tables, before.position);
      }
    }
  }

  // Every first occurrence below the frontier was applied.
  predicate Complete(log: seq<Message>, start: nat, tables: map<nat, Rows>, s: Consumer) {
    forall o :: start <= o < s.frontier && First(log, start, tables, o) ==> WasApplied(s, o)
  }

  /** Between messages, the consumer has applied each first occurrence exactly
      once if and only if no crash or failed apply ever fell between a marker
      and its apply. */
  lemma ExactlyOnceIffNoFailureAfterMarker(log: seq<Message>, start: nat, tables: map<nat, Rows>, steps: seq<Step>)
    requires start <= |log| && Executable(log, Initial(start, tables), steps)
    requires Exec(log, Initial(start, tables), steps).phase.AtHead?
    ensures Complete(log, start, tables, Exec(log, Initial(start, tables), steps)) <==>
            Clean(log, Initial(start, tables), steps)
  {
    var s := Exec(log, Initial(start, tables), steps);
    RunKeepsInvariant(log, start, tables, steps);
    LosesNothingIff(log, start, tables, steps);
    if o :| o in s.lost && First(log, start, tables, o) {
      assert !WasApplied(s, o);
      assert !Complete(log, start, tables, s);
    }
  }

  // The first occurrences before offset n, in order.
  function Firsts(log: seq<Message>, start: nat, tables: map<nat, Rows>, n: nat): seq<nat> {
    if n <= start then []
    else Firsts(log, start, tables, n - 1) + if First(log, start, tables, n - 1) then [n - 1] else []
  }

  function Offsets(applied: seq<Application>): (r: seq<nat>)
    ensures |r| == |applied| && forall i :: 0 <= i < |r| ==> r[i] == applied[i].offset
  {
    seq(|applied|, i requires 0 <= i < |applied| => applied[i].offset)
  }

  predicate Increasing(a: seq<nat>) { forall i, j :: 0 <= i < j < |a| ==> a[i] < a[j] }

  lemma IncreasingOneMore(a: seq<nat>, n: nat)
    requires Increasing(a) && forall x: nat :: x in a ==> x < n
    ensures Increasing(a + [n]) && forall x: nat :: x in a + [n] <==> x in a || x == n
  {
    assert forall i :: 0 <= i < |a| ==> a[i] in a;
  }

  lemma {:induction false} FirstsInOrder(log: seq<Message>, start: nat, tables: map<nat, Rows>, n: nat)
    ensures Increasing(Firsts(log, start, tables, n))
    ensures forall o: nat :: o in Firsts(log, start, tables, n) <==> o < n && First(log, start, tables, o)
  {
    if n <= start {
    } else {
      FirstsInOrder(log, start, tables, n - 1);
      IncreasingOneMore(Firsts(log, start, tables, n - 1), n - 1);
    }
  }

  lemma ButTheLast(a: seq<nat>, x: nat)
    requires Increasing(a) && a != []
    ensures Increasing(a[..|a| - 1])
    ensures x in a[..|a| - 1] <==> x in a && x != a[|a| - 1]
  {
    assert a == a[..|a| - 1] + [a[|a| - 1]];
  }

  lemma SameLast(a: seq<nat>, b: seq<nat>)
    requires Increasing(a) && Increasing(b) && forall x: nat :: x in a <==> x in b
    ensures a == [] <==> b == []
    ensures a != [] ==> a[|a| - 1] == b[|b| - 1]
  {
    assert a == [] || a[|a| - 1] in b;
    assert b == [] || b[|b| - 1] in a;
  }

  lemma {:induction false} SameIncreasing(a: seq<nat>, b: seq<nat>)
    requires Increasing(a) && Increasing(b) && forall x: nat :: x in a <==> x in b
    ensures a == b
  {
    SameLast(a, b);
    if a == [] {
    } else {
      var m, n := |a| - 1, |b| - 1;
      forall x: nat ensures x in a[..m] <==> x in b[..n] {
        ButTheLast(a, x);
        ButTheLast(b, x);
      }
      SameIncreasing(a[..m], b[..n]);
      assert a == a[..m] + [a[m]] && b == b[..n] + [b[n]];
    }
  }

  lemma OffsetsApplied(s: Consumer, o: nat)
    ensures o in Offsets(s.applied) <==> WasApplied(s, o)
  {
    if WasApplied(s, o) {
      var i :| 0 <= i < |s.applied| && s.applied[i].offset == o;
      assert Offsets(s.applied)[i] == o;
    }
  }

  lemma CompleteIsFirsts(log: seq<Message>, start: nat, tables: map<nat, Rows>, s: Consumer)
    requires AppliedInOrder(log, start, tables, s)
    ensures Complete(log, start, tables, s) <==> Offsets(s.applied) == Firsts(log, start, tables, s.frontier)
  {
    FirstsInOrder(log, start, tables, s.frontier);
    forall o: nat ensures o in Offsets(s.applied) <==> WasApplied(s, o) { OffsetsApplied(s, o); }
    if Complete(log, start, tables, s) {
      SameIncreasing(Offsets(s.applied), Firsts(log, start, tables, s.frontier));
    }
  }

  /** Between messages, what was applied is one in-order pass over the first
      occurrences read so far, and the tables are its fold, if and only if no
      crash or failed apply ever fell between a marker and its apply. */
  lemma OnePassIffNoFailureAfterMarker(log: seq<Message>, start: nat, tables: map<nat, Rows>, steps: seq<Step>)
    requires start <= |log| && Executable(log, Initial(start, tables), steps)
    requires Exec(log, Initial(start, tables), steps).phase.AtHead?
    ensures var s := Exec(log, Initial(start, tables), steps);
      && s.tables == Fold(log, tables, s.applied)
      && (Offsets(s.applied) == Firsts(log, start, tables, s.frontier) <==> Clean(log, Initial(start, tables), steps))
  {
    RunKeepsInvariant(log, start, tables, steps);
    ExactlyOnceIffNoFailureAfterMarker(log, start, tables, steps);
    CompleteIsFirsts(log, start, tables, Exec(log, Initial(start, tables), steps));
  }

  /** The first occurrences, message by message: of an active monitor's results, those
      whose (target, timestamp) no result since `start` had before. */
  lemma FirstsAre(log: seq<Message>, start: nat, tables: map<nat, Rows>, n: nat, o: nat)
    ensures o in Firsts(log, start, tables, n) <==>
            && start <= o < n && o < |log| && log[o].Ping?
            && log[o].key.target in tables && tables[log[o].key.target].monitor.isActive
            && (forall p :: start <= p < o && log[p].Ping? ==>
                  log[p].key.target != log[o].key.target || log[p].key.timestamp != log[o].key.timestamp)
  {
    FirstsInOrder(log, start, tables, n);
    if start <= o < |log| && log[o].Ping? && Occurs(log, start, o, log[o].key) {
      var p :| start <= p < o && p < |log| && log[p].Ping? && log[p].key == log[o].key;
    }
  }

  predicate SameRows(a: map<nat, Rows>, b: map<nat, Rows>, t: nat) {
    (t in a <==> t in b) && (t in a && t in b ==> a[t] == b[t])
  }

  lemma StepLeavesInactive(log: seq<Message>, s: Consumer, step: Step, t: nat)
    requires Enabled(log, s, step) && (t !in s.tables || !s.tables[t].monitor.isActive)
    ensures SameRows(Next(log, s, step).tables, s.tables, t)
  {
  }

  lemma {:induction false} RunLeavesInactive(log: seq<Message>, s: Consumer, steps: seq<Step>, t: nat)
    requires Executable(log, s, steps) && (t !in s.tables || !s.tables[t].monitor.isActive)
    ensures SameRows(Exec(log, s, steps).tables, s.tables, t)
  {
    if steps == [] {
    } else {
      var front := steps[..|steps| - 1];
      RunLeavesInactive(log, s, front, t);
      StepLeavesInactive(log, Exec(log, s, front), steps[|steps| - 1], t);
    }
  }

  /** Results for a monitor that is inactive or gone are never applied: the rows of
      the one, and the absence of the other, outlast every run. */
  lemma InactiveIsUntouched(log: seq<Message>, start: nat, tables: map<nat, Rows>, steps: seq<Step>, t: nat)
    requires start <= |log| && Executable(log, Initial(start, tables), steps)
    requires t !in tables || !tables[t].monitor.isActive
    ensures var s := Exec(log, Initial(start, tables), steps);
      && (t in s.tables <==> t in tables) && (t in tables ==> s.tables[t] == tables[t])
      && forall i :: 0 <= i < |s.applied| && s.applied[i].offset < |log| && log[s.applied[i].offset].Ping? ==>
           log[s.applied[i].offset].key.target != t
  {
    RunKeepsInvariant(log, start, tables, steps);
    RunLeavesInactive(log, Initial(start, tables), steps, t);
  }

  // What was applied to one monitor.
  function AppliedTo(log: seq<Message>, applied: seq<Application>, t: nat): seq<Application> {
    if applied == [] then []
    else
      var last := applied[|applied| - 1];
      AppliedTo(log, applied[..|applied| - 1], t) +
      if last.offset < |log| && log[last.offset].Ping? && log[last.offset].key.target == t then [last] else []
  }

  // The check row one application leaves.
  predicate LoggedBy(log: seq<Message>, a: Application, row: CheckRow) {
    a.offset < |log| && log[a.offset].Ping? && row.checkedAt == a.at &&
    row.statusCode == Some(log[a.offset].result.statusCode) &&
    row.responseTimeMs == Some(log[a.offset].result.latencyMs)
  }

  predicate LoggedByEach(log: seq<Message>, applied: seq<Application>, rows: seq<CheckRow>) {
    |rows| == |applied| && forall i :: 0 <= i < |rows| ==> LoggedBy(log, applied[i], rows[i])
  }

  lemma {:induction false} FoldLogsEach(
    log: seq<Message>, tables: map<nat, Rows>, applied: seq<Application>, t: nat
  )
    requires t in tables
    ensures var f := Fold(log, tables, applied);
      && t in f && tables[t].checks <= f[t].checks
      && LoggedByEach(log, AppliedTo(log, applied, t), f[t].checks[|tables[t].checks|..])
  {
    if applied == [] {
    } else {
      var front, n := applied[..|applied| - 1], |tables[t].checks|;
      FoldLogsEach(log, tables, front, t);
      var before, after := Fold(log, tables, front)[t].checks, Fold(log, tables, applied)[t].checks;
      if AppliedTo(log, applied, t) != AppliedTo(log, front, t) {
        assert after[n..] == before[n..] + [after[|before|]];
      }
    }
  }

  /** Every applied result leaves one check row, in the order applied, and nothing
      else does: the check log of a monitor is what it was, and then one row for
      each of its applied results, with its code, response time and moment. */
  lemma OneCheckRowPerApplication(
    log: seq<Message>, start: nat, tables: map<nat, Rows>, steps: seq<Step>, t: nat
  )
    requires start <= |log| && Executable(log, Initial(start, tables), steps) && t in tables
    ensures var s := Exec(log, Initial(start, tables), steps);
      && t in s.tables && tables[t].checks <= s.tables[t].checks
      && LoggedByEach(log, AppliedTo(log, s.applied, t), s.tables[t].checks[|tables[t].checks|..])
  {
    RunKeepsInvariant(log, start, tables, steps);
    FoldLogsEach(log, tables, Exec(log, Initial(start, tables), steps).applied, t);
  }

  /** A result whose apply failed is redelivered but never applied: no message
      with its key is, in any continuation. */
  lemma FailedApplyIsNeverRetried(log: seq<Message>, start: nat, tables: map<nat, Rows>, steps: seq<Step>, k: nat)
    requires start <= |log| && Executable(log, Initial(start, tables), steps)
    requires k < |steps| && steps[k].Fail? && Executable(log, Initial(start, tables), steps[..k])
    requires var s := Exec(log, Initial(start, tables), steps[..k]); Loses(log, s, steps[k])
    ensures var failed := Exec(log, Initial(start, tables), steps[..k]).position;
            var s := Exec(log, Initial(start, tables), steps);
            forall i :: 0 <= i < |s.applied| ==> KeyAt(log, s.applied[i].offset) != KeyAt(log, failed)
  {
    var before := Exec(log, Initial(start, tables), steps[..k]);
    var failed := before.position;
    RunKeepsInvariant(log, start, tables, steps[..k]);
    LostStaysLost(log, Initial(start, tables), steps, k);
    RunKeepsInvariant(log, start, tables, steps);
    var s := Exec(log, Initial(start, tables), steps);
    forall i | 0 <= i < |s.applied|
      ensures KeyAt(log, s.applied[i].offset) != KeyAt(log, failed)
    {
      FirstsDiffer(log, start, tables, s.applied[i].offset, failed);
    }
  }

  lemma {:induction false} LostStaysLost(log: seq<Message>, s0: Consumer, steps: seq<Step>, k: nat)
    requires k < |steps| && Executable(log, s0, steps)
    requires Executable(log, s0, steps[..k]) && Exec(log, s0, steps[..k]).phase.Marked? && steps[k].Fail?
    ensures Exec(log, s0, steps[..k]).position in Exec(log, s0, steps).lost
  {
    var front := steps[..|steps| - 1];
    if k == |steps| - 1 {
      assert front == steps[..k];
    } else {
      assert front[..k] == steps[..k];
      LostStaysLost(log, s0, front, k);
    }
  }

  lemma ExecOneMore(log: seq<Message>, s: Consumer, steps: seq<Step>, step: Step)
    requires Executable(log, s, steps) && Enabled(log, Exec(log, s, steps), step)
    ensures Executable(log, s, steps + [step])
    ensures Exec(log, s, steps + [step]) == Next(log, Exec(log, s, steps), step)
  {
    assert (steps + [step])[..|steps|] == steps;
  }

  // Marked, failed, redelivered, resolved as a duplicate, and committed.
  const LOSING_RUN := [Take, Fail, Take, Commit]

  /** Such a run, for any result of any active monitor: its offset is committed and
      nothing was applied. */
  lemma LosingRunLosesTheResult(tables: map<nat, Rows>, key: Key, result: PingResult)
    requires IsActive(tables, key.target)
    ensures var log := [Ping(key, result)];
      && Executable(log, Initial(0, tables), LOSING_RUN)
      && First(log, 0, tables, 0)
      && var s := Exec(log, Initial(0, tables), LOSING_RUN); s.committed == 1 && s.applied == [] && s.tables == tables
  {
    var log, s := [Ping(key, result)], Initial(0, tables);
    ExecOneMore(log, s, [], Take);
    var taken := [] + [Take];
    ExecOneMore(log, s, taken, Fail);
    ExecOneMore(log, s, taken + [Fail], Take);
    ExecOneMore(log, s, taken + [Fail] + [Take], Commit);
    assert LOSING_RUN == taken + [Fail] + [Take] + [Commit];
  }

  lemma StepStopsAtNull(log: seq<Message>, s: Consumer, step: Step, o: nat)
    requires Enabled(log, s, step) && o < |log| && log[o].Null? && s.position <= s.frontier <= o
    ensures Next(log, s, step).frontier <= o
  {
  }

  lemma {:induction false} NullState(log: seq<Message>, start: nat, tables: map<nat, Rows>, steps: seq<Step>, o: nat)
    requires start <= o < |log| && log[o].Null? && Executable(log, Initial(start, tables), steps)
    ensures Exec(log, Initial(start, tables), steps).frontier <= o
  {
    if steps == [] {
    } else {
      var front := steps[..|steps| - 1];
      NullState(log, start, tables, front, o);
      RunKeepsInvariant(log, start, tables, front);
      StepStopsAtNull(log, Exec(log, Initial(start, tables), front), steps[|steps| - 1], o);
    }
  }

  /** A JSON null in the log stops the partition for good: however often it is
      delivered, it is never resolved and nothing behind it is ever applied. */
  lemma NullStopsThePartition(log: seq<Message>, start: nat, tables: map<nat, Rows>, steps: seq<Step>, o: nat)
    requires start <= o < |log| && log[o].Null? && Executable(log, Initial(start, tables), steps)
    ensures var s := Exec(log, Initial(start, tables), steps);
            s.committed <= s.position <= o && forall i :: 0 <= i < |s.applied| ==> s.applied[i].offset < o
  {
    NullState(log, start, tables, steps, o);
    RunKeepsInvariant(log, start, tables, steps);
  }

  // -------------------------------------------------- The code as written

  // What the surroundings do with one message: still running, and whether the
  // lookup and the apply go through.
  datatype Luck = Luck(running: bool, lookupOk: bool, applyOk: bool, at: int)

  predicate AllWell(luck: seq<Luck>) {
    forall i :: 0 <= i < |luck| ==> luck[i].running && luck[i].lookupOk && luck[i].applyOk
  }

  datatype Outcome = Advanced | Unresolved | Thrown

  predicate NullIn(log: seq<Message>, from: nat, upto: nat)
    requires upto <= |log|
  {
    exists o :: from <= o < upto && log[o].Null?
  }

  class PartitionConsumer {
    const log: seq<Message>
    const database: Database
    var committed: nat
    var position: nat
    var marks: set<Key>
    ghost var frontier: nat
    ghost var applied: seq<Application>
    ghost var lost: set<nat>

    ghost function State(phase: Phase): Consumer
      reads this, database
    {
      Consumer(committed, position, phase, marks, database.tables, frontier, applied, lost)
    }

    constructor (log: seq<Message>, start: nat, database: Database)
      ensures this.log == log && this.database == database
      ensures State(AtHead) == Initial(start, database.tables)
    {
      this.log, this.database := log, database;
      committed, position, marks := start, start, {};
      frontier, applied, lost := start, [], {};
    }

    /** One batch of `size` messages is a run of the step machine. If nothing goes
        wrong the whole batch is resolved and committed, unless there is a null in
        it: then the batch throws, and starts again from the last commit. */
    method EachBatch(size: nat, luck: seq<Luck>) returns (thrown: bool, ghost steps: seq<Step>)
      requires position + size <= |log| && |luck| == size
      modifies this, database
      ensures Executable(log, old(State(AtHead)), steps)
      ensures State(AtHead) == Exec(log, old(State(AtHead)), steps)
      ensures if thrown then committed == old(committed) == position
              else committed == position && old(position) <= position <= old(position) + size
      ensures thrown ==> NullIn(log, old(position), old(position) + size)
      ensures AllWell(luck) ==>
                (thrown <==> NullIn(log, old(position), old(position) + size)) &&
                (!thrown ==> position == old(position) + size)
    {
      steps := [];
      var start := position;
      for i := 0 to size
        invariant position == start + i && committed == old(committed)
        invariant Executable(log, old(State(AtHead)), steps)
        invariant State(AtHead) == Exec(log, old(State(AtHead)), steps)
        invariant !NullIn(log, start, position)
      {
        if !luck[i].running { break; }
        var outcome, steps' := HandleMessage(luck[i], old(State(AtHead)), steps);
        steps := steps';
        if outcome.Thrown? { return true, steps; }
        if outcome.Unresolved? { break; }
      }
      steps := CommitOffsets(old(State(AtHead)), steps);
      return false, steps;
    }

    method CommitOffsets(ghost origin: Consumer, ghost done: seq<Step>) returns (ghost steps: seq<Step>)
      requires Executable(log, origin, done) && State(AtHead) == Exec(log, origin, done)
      modifies this
      ensures Executable(log, origin, steps) && State(AtHead) == Exec(log, origin, steps)
      ensures position == committed == old(position)
    {
      ExecOneMore(log, origin, done, Commit);
      steps := done + [Commit];
      committed := position;
    }

    // Unresolved: the offset stays, and the loop is left.
    method HandleMessage(luck: Luck, ghost origin: Consumer, ghost done: seq<Step>)
      returns (outcome: Outcome, ghost steps: seq<Step>)
      requires position < |log|
      requires Executable(log, origin, done) && State(AtHead) == Exec(log, origin, done)
      modifies this, database
      ensures Executable(log, origin, steps) && State(AtHead) == Exec(log, origin, steps)
      ensures committed == old(committed)
      ensures outcome.Advanced? ==> position == old(position) + 1
      ensures outcome.Unresolved? ==> position == old(position)
      ensures outcome.Thrown? ==> position == committed
      ensures outcome.Thrown? <==> log[old(position)].Null?
      ensures luck.lookupOk && luck.applyOk ==> !outcome.Unresolved?
    {
      if log[position].Null? {
        steps := Throw(origin, done);
        return Thrown, steps;
      }
      var message := log[position];
      var marked, taken := TakeMessage(origin, done);
      if !marked { return Advanced, taken; }
      var resolved, handled := HandleMarked(message.key.target, message.result, luck, origin, taken);
      return if resolved then Advanced else Unresolved, handled;
    }

    // Reading target_id throws before the marker, and again in the handler.
    method Throw(ghost origin: Consumer, ghost done: seq<Step>) returns (ghost steps: seq<Step>)
      requires Executable(log, origin, done) && State(AtHead) == Exec(log, origin, done)
      modifies this
      ensures Executable(log, origin, steps) && State(AtHead) == Exec(log, origin, steps)
      ensures position == committed == old(committed)
    {
      ExecOneMore(log, origin, done, Restart);
      steps := done + [Restart];
      position := committed;
    }

    // Resolves what is not to be applied; wins the marker for the rest.
    method TakeMessage(ghost origin: Consumer, ghost done: seq<Step>) returns (marked: bool, ghost steps: seq<Step>)
      requires position < |log| && !log[position].Null?
      requires Executable(log, origin, done) && State(AtHead) == Exec(log, origin, done)
      modifies this
      ensures Executable(log, origin, steps)
      ensures marked ==> State(Marked) == Exec(log, origin, steps)
      ensures !marked ==> State(AtHead) == Exec(log, origin, steps)
      ensures database.tables == old(database.tables)
      ensures marked <==> log[old(position)].Ping? && log[old(position)].key !in old(marks)
      ensures committed == old(committed) && position == old(position) + if marked then 0 else 1
    {
      var message := log[position];
      ExecOneMore(log, origin, done, Take);
      steps := done + [Take];
      frontier := if position < frontier then frontier else position + 1;
      marked := message.Ping? && message.key !in marks;
      if marked {
        marks := marks + {message.key};
      } else {
        position := position + 1;
      }
    }

    // The marker was won: apply the result if its monitor is there and active.
    method HandleMarked(target: nat, result: PingResult, luck: Luck, ghost origin: Consumer, ghost done: seq<Step>)
      returns (resolved: bool, ghost steps: seq<Step>)
      requires position < |log| && log[position].Ping?
      requires target == log[position].key.target && result == log[position].result
      requires Executable(log, origin, done) && State(Marked) == Exec(log, origin, done)
      modifies this, database
      ensures Executable(log, origin, steps) && State(AtHead) == Exec(log, origin, steps)
      ensures committed == old(committed) && position == old(position) + if resolved then 1 else 0
      ensures luck.lookupOk && luck.applyOk ==> resolved
    {
      steps := done;
      var active := target in database.tables && database.tables[target].monitor.isActive;
      if !luck.lookupOk || (active && !luck.applyOk) {
        ExecOneMore(log, origin, steps, Fail);
        steps := steps + [Fail];
        lost := lost + {position};
        return false, steps;
      }
      if !active {
        ExecOneMore(log, origin, steps, Skip);
        steps := steps + [Skip];
        position := position + 1;
        return true, steps;
      }
      steps := ApplyResult(target, result, luck.at, origin, steps);
      return true, steps;
    }

    // applyCheckResult goes through, and the offset is resolved.
    method ApplyResult(target: nat, result: PingResult, at: int, ghost origin: Consumer, ghost done: seq<Step>)
      returns (ghost steps: seq<Step>)
      requires position < |log| && log[position].Ping? && IsActive(database.tables, target)
      requires target == log[position].key.target && result == log[position].result
      requires Executable(log, origin, done) && State(Marked) == Exec(log, origin, done)
      modifies this, database
      ensures Executable(log, origin, steps) && State(AtHead) == Exec(log, origin, steps)
      ensures committed == old(committed) && position == old(position) + 1
    {
      var rows := database.tables[target];
      ExecOneMore(log, origin, done, Land(at));
      steps := done + [Land(at)];
      var _ := database.ApplyCheckResult(target, rows.monitor, result, HasActive(rows.incidents), at);
      applied := applied + [Application(position, at)];
      ExecOneMore(log, origin, steps, Resolve);
      steps := steps + [Resolve];
      position := position + 1;
    }
  }
}
