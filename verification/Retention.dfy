/**
 Check retention: finished days are rolled up into daily summaries, then raw
 checks older than the retention window are deleted in bounded batches. The
 summaries have to stay true to rows that are no longer there.
 */
module Retention {
  import opened Common
  import opened MonitorEngine

  const DELETE_BATCH_SIZE := 10_000
  const MAX_BATCHES_PER_RUN := 200
  const PRUNE_CAP := DELETE_BATCH_SIZE * MAX_BATCHES_PER_RUN

  datatype Check = Check(monitorId: nat, day: int, status: Status, responseMs: Option<int>)

  datatype Group = Group(monitorId: nat, day: int)

  // `responses` is what the average, minimum, maximum and percentiles are
  // computed from: the response times of UP checks.
  datatype Summary = Summary(total: nat, up: nat, down: nat, degraded: nat, responses: map<nat, int>)

  // `recorded` is every check ever inserted.
  datatype Store = Store(today: int, raw: map<nat, Check>, daily: map<Group, Summary>, recorded: map<nat, Check>)

  function GroupOf(c: Check): Group { Group(c.monitorId, c.day) }

  function RowsOf(table: map<nat, Check>, g: Group): map<nat, Check> {
    map id | id in table && GroupOf(table[id]) == g :: table[id]
  }

  function CountOf(rows: map<nat, Check>, status: Status): nat {
    |set id | id in rows && rows[id].status == status|
  }

  function Summarise(rows: map<nat, Check>): Summary {
    Summary(|rows|, CountOf(rows, Up), CountOf(rows, Down), CountOf(rows, Degraded),
            map id | id in rows && rows[id].status.Up? && rows[id].responseMs.Some? :: rows[id].responseMs.value)
  }

  function FinishedGroups(s: Store): set<Group> {
    set id | id in s.raw && s.raw[id].day < s.today :: GroupOf(s.raw[id])
  }

  function Inserted(s: Store, id: nat, check: Check): Store {
    s.(raw := s.raw[id := check], recorded := s.recorded[id := check])
  }

  // INSERT ... GROUP BY ... ON CONFLICT DO UPDATE
  function RolledUp(s: Store): Store {
    s.(daily := s.daily + map g | g in FinishedGroups(s) :: Summarise(RowsOf(s.raw, g)))
  }

  function Eligible(s: Store, keepDays: nat): set<nat> {
    set id | id in s.raw && s.raw[id].day < s.today - keepDays && GroupOf(s.raw[id]) in s.daily
  }

  function Without(s: Store, ids: set<nat>): Store { s.(raw := s.raw - ids) }

  // The most rows a prune can delete if only so many of its statements go through.
  function Capacity(statements: nat): nat {
    if statements < MAX_BATCHES_PER_RUN then statements * DELETE_BATCH_SIZE else PRUNE_CAP
  }

  // LIMIT picks any rows, as many as there are up to the limit.
  predicate LegalPick(picked: set<nat>, from: set<nat>, limit: nat) {
    picked <= from && |picked| == Min(|from|, limit)
  }

  // ------------------------------------------------------ What must hold

  predicate SummariesAreTrue(s: Store) {
    forall g :: g in s.daily ==> g.day < s.today && s.daily[g] == Summarise(RowsOf(s.recorded, g))
  }

  predicate RawIsRecorded(s: Store) {
    (forall id :: id in s.raw ==> id in s.recorded && s.recorded[id] == s.raw[id])
    && (forall id :: id in s.recorded ==> s.recorded[id].day <= s.today)
  }

  // No raw row is gone without a summary, nor before its time.
  predicate DeletedAreSummarised(s: Store, keepDays: nat) {
    forall id :: id in s.recorded && id !in s.raw ==>
      GroupOf(s.recorded[id]) in s.daily && s.recorded[id].day < s.today - keepDays
  }

  // No (monitor, day) has lost some of its rows but not all.
  predicate NoHalfDeletedDay(s: Store) {
    forall id :: id in s.raw ==>
      RowsOf(s.raw, GroupOf(s.raw[id])) == RowsOf(s.recorded, GroupOf(s.raw[id]))
  }

  predicate Sound(s: Store, keepDays: nat) {
    SummariesAreTrue(s) && RawIsRecorded(s) && DeletedAreSummarised(s, keepDays)
  }

  // ----------------------------------------- Inserts, midnights and cycles

  // Statement by statement; `pruning` counts the batches of a running prune.
  // `cut` says that some prune deleted rows, but stopped with eligible ones left.
  datatype Clock = Clock(store: Store, pruning: Option<nat>, cut: bool)

  datatype Step =
    | Insert(id: nat, check: Check)
    | Midnight
    | RollUp
    | DeleteBatch(picked: set<nat>)
    | Abort           // a statement throws, and the cycle with it

  predicate Enabled(c: Clock, step: Step, keepDays: nat) {
    match step
    case Insert(id, check) => id !in c.store.recorded && check.day == c.store.today
    case Midnight => true
    case RollUp => c.pruning.None?
    case DeleteBatch(picked) =>
      c.pruning.Some? && c.pruning.value < MAX_BATCHES_PER_RUN &&
      LegalPick(picked, Eligible(c.store, keepDays), DELETE_BATCH_SIZE)
    case Abort => c.pruning.Some?
  }

  // The prune ends here, after some batches.
  function Stopped(c: Clock, store: Store, keepDays: nat): Clock {
    Clock(store, None, c.cut || Eligible(store, keepDays) != {})
  }

  function Next(c: Clock, step: Step, keepDays: nat): Clock {
    match step
    case Insert(id, check) =>
      c.(store := Inserted(c.store, id, check))
    case Midnight => c.(store := c.store.(today := c.store.today + 1))
    case RollUp => c.(store := RolledUp(c.store), pruning := Some(0))
    case DeleteBatch(picked) =>
      var store := Without(c.store, picked);
      if |picked| < DELETE_BATCH_SIZE then Clock(store, None, c.cut)
      else if c.pruning.GetOr(0) + 1 == MAX_BATCHES_PER_RUN then Stopped(c, store, keepDays)
      else Clock(store, Some(c.pruning.GetOr(0) + 1), c.cut)
    case Abort =>
      if c.pruning.GetOr(0) == 0 then c.(pruning := None) else Stopped(c, c.store, keepDays)
  }

  predicate Executable(c: Clock, steps: seq<Step>, keepDays: nat) {
    steps == [] ||
    (Executable(c, steps[..|steps| - 1], keepDays) &&
     Enabled(Exec(c, steps[..|steps| - 1], keepDays), steps[|steps| - 1], keepDays))
  }

  function Exec(c: Clock, steps: seq<Step>, keepDays: nat): Clock {
    if steps == [] then c else Next(Exec(c, steps[..|steps| - 1], keepDays), steps[|steps| - 1], keepDays)
  }

  function Empty(today: int): Clock { Clock(Store(today, map[], map[], map[]), None, false) }

  // Nothing of the current prune is deleted yet.
  predicate BetweenPrunes(c: Clock) { c.pruning.GetOr(0) == 0 }

  predicate Invariant(c: Clock, keepDays: nat) {
    c.cut || (Sound(c.store, keepDays) && (BetweenPrunes(c) ==> NoHalfDeletedDay(c.store)))
  }

  lemma InsertKeepsOtherGroups(table: map<nat, Check>, id: nat, check: Check, g: Group)
    requires id !in table && GroupOf(check) != g
    ensures RowsOf(table[id := check], g) == RowsOf(table, g)
  {
  }

  lemma InsertKeepsSummaries(s: Store, id: nat, check: Check)
    requires SummariesAreTrue(s) && id !in s.recorded && check.day == s.today
    ensures SummariesAreTrue(Inserted(s, id, check))
  {
    forall g | g in s.daily ensures RowsOf(s.recorded[id := check], g) == RowsOf(s.recorded, g) {
      InsertKeepsOtherGroups(s.recorded, id, check, g);
    }
  }

  lemma InsertKeepsRecords(s: Store, id: nat, check: Check, keepDays: nat)
    requires RawIsRecorded(s) && DeletedAreSummarised(s, keepDays) && id !in s.recorded && check.day == s.today
    ensures RawIsRecorded(Inserted(s, id, check)) && DeletedAreSummarised(Inserted(s, id, check), keepDays)
  {
  }

  // The day of the new check has lost nothing yet.
  lemma InsertedDayIsWhole(s: Store, id: nat, check: Check)
    requires RawIsRecorded(s) && id !in s.recorded
    requires forall k :: k in s.recorded && k !in s.raw ==> s.recorded[k].day < check.day
    ensures var t := Inserted(s, id, check); RowsOf(t.raw, GroupOf(check)) == RowsOf(t.recorded, GroupOf(check))
  {
    var t := Inserted(s, id, check);
    forall j | j in t.recorded && GroupOf(t.recorded[j]) == GroupOf(check) ensures j in t.raw {}
  }

  lemma InsertKeepsDaysWhole(s: Store, id: nat, check: Check)
    requires RawIsRecorded(s) && NoHalfDeletedDay(s) && id !in s.recorded
    requires forall k :: k in s.recorded && k !in s.raw ==> s.recorded[k].day < check.day
    ensures NoHalfDeletedDay(Inserted(s, id, check))
  {
    var t := Inserted(s, id, check);
    forall k | k in t.raw
      ensures RowsOf(t.raw, GroupOf(t.raw[k])) == RowsOf(t.recorded, GroupOf(t.raw[k]))
    {
      var g := GroupOf(t.raw[k]);
      if g != GroupOf(check) {
        InsertKeepsOtherGroups(s.raw, id, check, g);
        InsertKeepsOtherGroups(s.recorded, id, check, g);
      } else {
        InsertedDayIsWhole(s, id, check);
      }
    }
  }

  lemma RolledUpAt(s: Store, g: Group)
    ensures g in RolledUp(s).daily <==> g in s.daily || g in FinishedGroups(s)
    ensures g in RolledUp(s).daily ==>
              RolledUp(s).daily[g] == if g in FinishedGroups(s) then Summarise(RowsOf(s.raw, g)) else s.daily[g]
  {
  }

  // A day with raw rows left has all of them, so its summary is true.
  lemma FinishedDayIsWhole(s: Store, g: Group)
    requires NoHalfDeletedDay(s) && g in FinishedGroups(s)
    ensures g.day < s.today && RowsOf(s.raw, g) == RowsOf(s.recorded, g)
  {
    var b :| b in s.raw && s.raw[b].day < s.today && GroupOf(s.raw[b]) == g;
  }

  lemma RolledSummaryIsTrue(s: Store, g: Group)
    requires SummariesAreTrue(s) && NoHalfDeletedDay(s) && g in RolledUp(s).daily
    ensures g.day < s.today && RolledUp(s).daily[g] == Summarise(RowsOf(s.recorded, g))
  {
    RolledUpAt(s, g);
    if g in FinishedGroups(s) {
      FinishedDayIsWhole(s, g);
    }
  }

  lemma RollUpStaysTrue(s: Store, keepDays: nat)
    requires Sound(s, keepDays) && NoHalfDeletedDay(s)
    ensures Sound(RolledUp(s), keepDays) && NoHalfDeletedDay(RolledUp(s))
  {
    var t := RolledUp(s);
    assert SummariesAreTrue(t) by {
      forall g | g in t.daily ensures g.day < s.today && t.daily[g] == Summarise(RowsOf(s.recorded, g)) {
        RolledSummaryIsTrue(s, g);
      }
    }
    forall g | g in s.daily ensures g in t.daily { RolledUpAt(s, g); }
  }

  lemma DeletingStaysSound(s: Store, picked: set<nat>, keepDays: nat)
    requires Sound(s, keepDays) && picked <= Eligible(s, keepDays)
    ensures Sound(Without(s, picked), keepDays)
  {
  }

  lemma SubsetSizes(part: set<nat>, whole: set<nat>)
    requires part <= whole
    ensures |whole - part| == |whole| - |part|
    ensures |part| == |whole| ==> part == whole
  {
    assert whole == part + (whole - part);
  }

  // A short batch took everything there was.
  lemma ShortBatchFinishes(s: Store, picked: set<nat>, keepDays: nat)
    requires Sound(s, keepDays)
    requires LegalPick(picked, Eligible(s, keepDays), DELETE_BATCH_SIZE) && |picked| < DELETE_BATCH_SIZE
    ensures Eligible(Without(s, picked), keepDays) == {}
    ensures NoHalfDeletedDay(Without(s, picked))
  {
    SubsetSizes(picked, Eligible(s, keepDays));
    DeletingStaysSound(s, picked, keepDays);
    AllEligibleGone(Without(s, picked), keepDays);
  }

  lemma AllEligibleGone(s: Store, keepDays: nat)
    requires Sound(s, keepDays) && Eligible(s, keepDays) == {}
    ensures NoHalfDeletedDay(s)
  {
    forall b | b in s.raw
      ensures RowsOf(s.raw, GroupOf(s.raw[b])) == RowsOf(s.recorded, GroupOf(s.raw[b]))
    {
      var g := GroupOf(s.raw[b]);
      assert b !in Eligible(s, keepDays);
      forall a | a in s.recorded && GroupOf(s.recorded[a]) == g ensures a in s.raw {}
    }
  }

  lemma StepKeepsInvariant(c: Clock, step: Step, keepDays: nat)
    requires Invariant(c, keepDays) && Enabled(c, step, keepDays)
    ensures Invariant(Next(c, step, keepDays), keepDays)
  {
    if !c.cut {
      match step
      case Insert(id, check) =>
        InsertKeepsSummaries(c.store, id, check);
        InsertKeepsRecords(c.store, id, check, keepDays);
        if BetweenPrunes(c) {
          InsertKeepsDaysWhole(c.store, id, check);
        }
      case Midnight =>
      case RollUp => RollUpStaysTrue(c.store, keepDays);
      case DeleteBatch(picked) =>
        DeletingStaysSound(c.store, picked, keepDays);
        DoneWhenNoneIsEligible(Without(c.store, picked), keepDays);
        if |picked| < DELETE_BATCH_SIZE {
          ShortBatchFinishes(c.store, picked, keepDays);
        }
      case Abort => DoneWhenNoneIsEligible(c.store, keepDays);
    }
  }

  lemma DoneWhenNoneIsEligible(s: Store, keepDays: nat)
    requires Sound(s, keepDays)
    ensures Eligible(s, keepDays) == {} ==> NoHalfDeletedDay(s)
  {
    if Eligible(s, keepDays) == {} {
      AllEligibleGone(s, keepDays);
    }
  }

  lemma {:induction false} RunKeepsInvariant(c: Clock, steps: seq<Step>, keepDays: nat)
    requires Invariant(c, keepDays) && Executable(c, steps, keepDays)
    ensures Invariant(Exec(c, steps, keepDays), keepDays)
  {
    if steps == [] {
    } else {
      RunKeepsInvariant(c, steps[..|steps| - 1], keepDays);
      StepKeepsInvariant(Exec(c, steps[..|steps| - 1], keepDays), steps[|steps| - 1], keepDays);
    }
  }

  // The checks of one monitor on one day.
  function ChecksOf(table: map<nat, Check>, g: Group): set<nat> {
    set id | id in table && table[id].monitorId == g.monitorId && table[id].day == g.day
  }

  // What a summary says, check by check.
  predicate Tells(summary: Summary, table: map<nat, Check>, g: Group) {
    && summary.total == |ChecksOf(table, g)|
    && summary.up == |set id | id in ChecksOf(table, g) && table[id].status.Up?|
    && summary.down == |set id | id in ChecksOf(table, g) && table[id].status.Down?|
    && summary.degraded == |set id | id in ChecksOf(table, g) && table[id].status.Degraded?|
    && summary.responses.Keys ==
       (set id | id in ChecksOf(table, g) && table[id].status.Up? && table[id].responseMs.Some?)
    && (forall id :: id in summary.responses && id in table ==> Some(summary.responses[id]) == table[id].responseMs)
  }

  lemma CountTells(table: map<nat, Check>, g: Group, status: Status)
    ensures CountOf(RowsOf(table, g), status) == |set id | id in ChecksOf(table, g) && table[id].status == status|
  {
    assert (set id | id in RowsOf(table, g) && RowsOf(table, g)[id].status == status) ==
           (set id | id in ChecksOf(table, g) && table[id].status == status);
  }

  lemma SummaryTells(table: map<nat, Check>, g: Group)
    ensures Tells(Summarise(RowsOf(table, g)), table, g)
  {
    var rows := RowsOf(table, g);
    assert rows.Keys == ChecksOf(table, g) && |rows| == |rows.Keys|;
    CountTells(table, g, Up);
    CountTells(table, g, Down);
    CountTells(table, g, Degraded);
    SameStatusSets(table, g);
  }

  lemma SameStatusSets(table: map<nat, Check>, g: Group)
    ensures (set id | id in ChecksOf(table, g) && table[id].status == Up) ==
            (set id | id in ChecksOf(table, g) && table[id].status.Up?)
    ensures (set id | id in ChecksOf(table, g) && table[id].status == Down) ==
            (set id | id in ChecksOf(table, g) && table[id].status.Down?)
    ensures (set id | id in ChecksOf(table, g) && table[id].status == Degraded) ==
            (set id | id in ChecksOf(table, g) && table[id].status.Degraded?)
  {
  }

  /** After a roll-up every finished day that has raw checks has a summary, and no
      unfinished one has. */
  lemma RollUpCoversFinishedDays(s: Store, id: nat)
    requires id in s.raw
    ensures s.raw[id].day < s.today ==> Group(s.raw[id].monitorId, s.raw[id].day) in RolledUp(s).daily
    ensures s.raw[id].day >= s.today && Group(s.raw[id].monitorId, s.raw[id].day) !in s.daily ==>
              Group(s.raw[id].monitorId, s.raw[id].day) !in RolledUp(s).daily
  {
    RolledUpAt(s, GroupOf(s.raw[id]));
  }

  /** As long as no prune stopped half way, by its batch cap or by an error,
      inserts and midnights may fall between any two statements: every summary
      tells of every check ever recorded that day, and no check is gone without
      one. */
  lemma NoHistoryIsLost(today: int, steps: seq<Step>, keepDays: nat)
    requires Executable(Empty(today), steps, keepDays) && !Exec(Empty(today), steps, keepDays).cut
    ensures var s := Exec(Empty(today), steps, keepDays).store;
      && (forall g :: g in s.daily ==> Tells(s.daily[g], s.recorded, g))
      && (forall id :: id in s.recorded ==>
            id in s.raw || Group(s.recorded[id].monitorId, s.recorded[id].day) in s.daily)
      && (forall id :: id in s.raw ==> id in s.recorded && s.recorded[id] == s.raw[id])
  {
    RunKeepsInvariant(Empty(today), steps, keepDays);
    var s := Exec(Empty(today), steps, keepDays).store;
    forall g | g in s.daily ensures Tells(s.daily[g], s.recorded, g) { SummaryTells(s.recorded, g); }
  }

  // ------------------------------------------------------- The batch cap

  lemma FewerRows(part: map<nat, Check>, whole: map<nat, Check>)
    requires forall id :: id in part ==> id in whole && whole[id] == part[id]
    ensures |part| <= |whole|
    ensures |part| == |whole| ==> part == whole
  {
    assert part.Keys <= whole.Keys;
    SubsetSizes(part.Keys, whole.Keys);
    assert |part| == |part.Keys| && |whole| == |whole.Keys|;
    assert part.Keys == whole.Keys ==> part == whole;
  }

  lemma RolledTotal(s: Store, g: Group)
    requires g in FinishedGroups(s)
    ensures g in RolledUp(s).daily && RolledUp(s).daily[g].total == |RowsOf(s.raw, g)|
  {
    RolledUpAt(s, g);
  }

  lemma HalfDeletedDayIsMiscounted(s: Store, keepDays: nat, b: nat)
    requires Sound(s, keepDays) && b in s.raw
    requires RowsOf(s.raw, GroupOf(s.raw[b])) != RowsOf(s.recorded, GroupOf(s.raw[b]))
    ensures !SummariesAreTrue(RolledUp(s))
  {
    var g := GroupOf(s.raw[b]);
    var part, whole := RowsOf(s.raw, g), RowsOf(s.recorded, g);
    FewerRows(part, whole);
    assert exists a :: a in whole && a !in part;
    assert g in FinishedGroups(s);
    RolledTotal(s, g);
    assert RolledUp(s).daily[g].total != Summarise(whole).total;
  }

  /** After the cap left something behind, the next roll-up keeps every summary
      true if and only if no finished day is half deleted. */
  lemma RollUpIsTrueIff(s: Store, keepDays: nat)
    requires Sound(s, keepDays)
    ensures SummariesAreTrue(RolledUp(s)) <==> NoHalfDeletedDay(s)
  {
    if NoHalfDeletedDay(s) {
      RollUpStaysTrue(s, keepDays);
    } else {
      var b :| b in s.raw && RowsOf(s.raw, GroupOf(s.raw[b])) != RowsOf(s.recorded, GroupOf(s.raw[b]));
      HalfDeletedDayIsMiscounted(s, keepDays, b);
    }
  }

  // Every summary is true at every moment of the run.
  ghost predicate AlwaysTrue(c: Clock, steps: seq<Step>, keepDays: nat) {
    (steps != [] ==> AlwaysTrue(c, steps[..|steps| - 1], keepDays)) &&
    SummariesAreTrue(Exec(c, steps, keepDays).store)
  }

  predicate RollsUpWholeDays(c: Clock, steps: seq<Step>, keepDays: nat) {
    steps == [] ||
    (RollsUpWholeDays(c, steps[..|steps| - 1], keepDays) &&
     (steps[|steps| - 1].RollUp? ==> NoHalfDeletedDay(Exec(c, steps[..|steps| - 1], keepDays).store)))
  }

  predicate Accounted(s: Store, keepDays: nat) { RawIsRecorded(s) && DeletedAreSummarised(s, keepDays) }

  lemma StepKeepsAccount(c: Clock, step: Step, keepDays: nat)
    requires Accounted(c.store, keepDays) && Enabled(c, step, keepDays)
    ensures Accounted(Next(c, step, keepDays).store, keepDays)
  {
    if step.Insert? {
      InsertKeepsRecords(c.store, step.id, step.check, keepDays);
    } else if step.RollUp? {
      forall g | g in c.store.daily ensures g in RolledUp(c.store).daily { RolledUpAt(c.store, g); }
    }
  }

  lemma StepIsTrueIff(c: Clock, step: Step, keepDays: nat)
    requires Sound(c.store, keepDays) && Enabled(c, step, keepDays)
    ensures SummariesAreTrue(Next(c, step, keepDays).store) <==> (step.RollUp? ==> NoHalfDeletedDay(c.store))
  {
    match step
    case Insert(id, check) => InsertKeepsSummaries(c.store, id, check);
    case RollUp => RollUpIsTrueIff(c.store, keepDays);
    case DeleteBatch(picked) => DeletingStaysSound(c.store, picked, keepDays);
    case Midnight | Abort =>
  }

  /** Over every run, with prunes that stop at their cap or by an error: every
      summary is true all along if and only if no roll-up ever finds a finished
      day that is half deleted. */
  lemma {:induction false} HistoryIsTrueIff(today: int, steps: seq<Step>, keepDays: nat)
    requires Executable(Empty(today), steps, keepDays)
    ensures AlwaysTrue(Empty(today), steps, keepDays) <==> RollsUpWholeDays(Empty(today), steps, keepDays)
    ensures Accounted(Exec(Empty(today), steps, keepDays).store, keepDays)
  {
    if steps == [] {
    } else {
      var front, last := steps[..|steps| - 1], steps[|steps| - 1];
      HistoryIsTrueIff(today, front, keepDays);
      StepKeepsAccount(Exec(Empty(today), front, keepDays), last, keepDays);
      if AlwaysTrue(Empty(today), front, keepDays) {
        StepIsTrueIff(Exec(Empty(today), front, keepDays), last, keepDays);
      }
    }
  }

  // ------------------------------------------- What a prune may leave behind

  lemma KeysLeft(s: Store, g: Group, picked: set<nat>)
    ensures RowsOf(Without(s, picked).raw, g).Keys == RowsOf(s.raw, g).Keys - picked
  {
  }

  lemma SizeLeft(all: set<nat>, picked: set<nat>)
    ensures |all - picked| == |all| - |picked * all|
  {
    SubsetSizes(picked * all, all);
    assert all - picked == all - picked * all;
  }

  lemma RowsLeft(s: Store, g: Group, all: set<nat>, picked: set<nat>)
    requires RowsOf(s.raw, g).Keys == all
    ensures |RowsOf(Without(s, picked).raw, g)| == |all| - |picked * all|
  {
    KeysLeft(s, g, picked);
    SizeLeft(all, picked);
    var left := RowsOf(Without(s, picked).raw, g);
    assert |left| == |left.Keys|;
  }

  /** If a prune deletes some checks of a (monitor, day) and leaves check b of it,
      exactly the deleted ones are missing from the summary after the next
      roll-up. */
  lemma DeletedChecksAreMissing(s: Store, keepDays: nat, b: nat, picked: set<nat>)
    requires Sound(s, keepDays) && NoHalfDeletedDay(s)
    requires b in s.raw && s.raw[b].day < s.today && b !in picked
    ensures var g := GroupOf(s.raw[b]);
            var t := RolledUp(Without(s, picked));
            g in t.daily &&
            t.daily[g].total == Summarise(RowsOf(s.recorded, g)).total - |picked * RowsOf(s.raw, g).Keys|
  {
    var g := GroupOf(s.raw[b]);
    RowsLeft(s, g, RowsOf(s.raw, g).Keys, picked);
    assert b in Without(s, picked).raw;
    RolledTotal(Without(s, picked), g);
    WholeDayTotal(s, g, b);
  }

  predicate OnePerDay(s: Store, ids: set<nat>) {
    forall a, b :: a in ids && b in ids && a in s.raw && b in s.raw && GroupOf(s.raw[a]) == GroupOf(s.raw[b]) ==>
      a == b
  }

  ghost predicate AlwaysSafe(s: Store, keepDays: nat, limit: nat) {
    forall picked :: LegalPick(picked, Eligible(s, keepDays), limit) ==>
      SummariesAreTrue(RolledUp(Without(s, picked)))
  }

  // A set of the given size that has a, but not b.
  lemma {:induction false} PickBetween(from: set<nat>, limit: nat, a: nat, b: nat) returns (picked: set<nat>)
    requires a in from && b in from && a != b && 1 <= limit < |from|
    ensures LegalPick(picked, from, limit) && a in picked && b !in picked
  {
    if limit == 1 {
      picked := {a};
    } else {
      var smaller := PickBetween(from, limit - 1, a, b);
      SubsetSizes(smaller, from);
      SubsetSizes(smaller + {b}, from);
      assert |from - (smaller + {b})| >= 1;
      var c :| c in from - (smaller + {b});
      picked := smaller + {c};
    }
  }

  lemma CutDayIsUntrue(s: Store, keepDays: nat, picked: set<nat>, a: nat, b: nat)
    requires Sound(s, keepDays) && NoHalfDeletedDay(s) && picked <= Eligible(s, keepDays)
    requires a in picked && b in Eligible(s, keepDays) - picked && GroupOf(s.raw[a]) == GroupOf(s.raw[b])
    ensures !SummariesAreTrue(RolledUp(Without(s, picked)))
  {
    var g := GroupOf(s.raw[b]);
    DeletedChecksAreMissing(s, keepDays, b, picked);
    assert a in picked * RowsOf(s.raw, g).Keys;
    var t := RolledUp(Without(s, picked));
    assert t.daily[g].total != Summarise(RowsOf(t.recorded, g)).total;
  }

  // What is deleted alone of its day leaves no half of it.
  lemma LonePicksKeepDaysWhole(s: Store, keepDays: nat, picked: set<nat>)
    requires Sound(s, keepDays) && NoHalfDeletedDay(s) && picked <= Eligible(s, keepDays)
    requires OnePerDay(s, Eligible(s, keepDays))
    ensures NoHalfDeletedDay(Without(s, picked))
  {
    var t := Without(s, picked);
    forall b | b in t.raw
      ensures RowsOf(t.raw, GroupOf(t.raw[b])) == RowsOf(t.recorded, GroupOf(t.raw[b]))
    {
      var g := GroupOf(s.raw[b]);
      forall a | a in RowsOf(s.raw, g) ensures a in t.raw {
        assert a in picked ==> b in Eligible(s, keepDays);
      }
      assert RowsOf(t.raw, g) == RowsOf(s.raw, g);
    }
  }

  lemma SafePick(s: Store, keepDays: nat, limit: nat, picked: set<nat>)
    requires Sound(s, keepDays) && NoHalfDeletedDay(s) && LegalPick(picked, Eligible(s, keepDays), limit)
    requires |Eligible(s, keepDays)| <= limit || OnePerDay(s, Eligible(s, keepDays))
    ensures SummariesAreTrue(RolledUp(Without(s, picked)))
  {
    var left := Without(s, picked);
    DeletingStaysSound(s, picked, keepDays);
    if |Eligible(s, keepDays)| <= limit {
      SubsetSizes(picked, Eligible(s, keepDays));
      EligibleAfter(s, picked, keepDays);
      AllEligibleGone(left, keepDays);
    } else {
      LonePicksKeepDaysWhole(s, keepDays, picked);
    }
    RollUpStaysTrue(left, keepDays);
  }

  lemma TwoOfADay(s: Store, ids: set<nat>) returns (a: nat, b: nat)
    requires !OnePerDay(s, ids)
    ensures a in ids && b in ids && a in s.raw && b in s.raw && a != b
    ensures GroupOf(s.raw[a]) == GroupOf(s.raw[b])
  {
    a, b :| a in ids && b in ids && a in s.raw && b in s.raw && GroupOf(s.raw[a]) == GroupOf(s.raw[b]) && a != b;
  }

  lemma UnsafePick(s: Store, keepDays: nat, limit: nat) returns (picked: set<nat>)
    requires Sound(s, keepDays) && NoHalfDeletedDay(s)
    requires 1 <= limit < |Eligible(s, keepDays)| && !OnePerDay(s, Eligible(s, keepDays))
    ensures LegalPick(picked, Eligible(s, keepDays), limit) && !SummariesAreTrue(RolledUp(Without(s, picked)))
  {
    var a, b := TwoOfADay(s, Eligible(s, keepDays));
    picked := PickBetween(Eligible(s, keepDays), limit, a, b);
    CutDayIsUntrue(s, keepDays, picked, a, b);
  }

  /** The condition to look at before a prune of at most `limit` rows: whichever
      rows LIMIT picks, all summaries are true after the next roll-up, if and
      only if all eligible rows fit, or no two of them are of the same monitor
      and day. The limit is the Capacity of the prune: PRUNE_CAP, or less when an
      error ends it. */
  lemma PruneIsSafeIff(s: Store, keepDays: nat, limit: nat)
    requires Sound(s, keepDays) && NoHalfDeletedDay(s) && limit >= 1
    ensures AlwaysSafe(s, keepDays, limit) <==>
            |Eligible(s, keepDays)| <= limit || OnePerDay(s, Eligible(s, keepDays))
  {
    if |Eligible(s, keepDays)| <= limit || OnePerDay(s, Eligible(s, keepDays)) {
      forall picked | LegalPick(picked, Eligible(s, keepDays), limit)
        ensures SummariesAreTrue(RolledUp(Without(s, picked)))
      {
        SafePick(s, keepDays, limit, picked);
      }
    } else {
      var picked := UnsafePick(s, keepDays, limit);
      assert !AlwaysSafe(s, keepDays, limit);
    }
  }

  lemma WholeDayTotal(s: Store, g: Group, id: nat)
    requires NoHalfDeletedDay(s) && id in s.raw && GroupOf(s.raw[id]) == g
    ensures Summarise(RowsOf(s.recorded, g)).total == |RowsOf(s.raw, g).Keys|
  {
    var rows := RowsOf(s.raw, g);
    assert rows == RowsOf(s.recorded, g);
    assert |rows| == |rows.Keys|;
  }

  lemma OneMoreBatch(all: set<nat>, before: set<nat>, picked: set<nat>)
    requires before <= all && LegalPick(picked, all - before, DELETE_BATCH_SIZE)
    ensures before + picked <= all && |before + picked| == |before| + |picked| <= |all|
    ensures |picked| < DELETE_BATCH_SIZE ==> before + picked == all
  {
    SubsetSizes(before, all);
    SubsetSizes(picked, all - before);
    SubsetSizes(before + picked, all);
  }

  lemma WithoutTwice(s: Store, a: set<nat>, b: set<nat>)
    ensures Without(Without(s, a), b) == Without(s, a + b)
  {
    assert s.raw - a - b == s.raw - (a + b);
  }

  // -------------------------------------------------- The code as written

  method PickUpTo(from: set<nat>, limit: nat) returns (picked: set<nat>)
    ensures LegalPick(picked, from, limit)
  {
    picked := {};
    var rest := from;
    while rest != {} && |picked| < limit
      invariant picked <= from && rest == from - picked && |picked| <= limit
      decreases rest
    {
      var id :| id in rest;
      picked, rest := picked + {id}, rest - {id};
    }
    SubsetSizes(picked, from);
  }

  class RetentionJob {
    const keepDays: nat
    var today: int
    var raw: map<nat, Check>
    var daily: map<Group, Summary>
    ghost var recorded: map<nat, Check>

    ghost function State(): Store
      reads this
    {
      Store(today, raw, daily, recorded)
    }

    constructor (keepDays: nat, today: int)
      ensures this.keepDays == keepDays && State() == Store(today, map[], map[], map[])
    {
      this.keepDays, this.today := keepDays, today;
      raw, daily, recorded := map[], map[], map[];
    }

    method RollupDailyChecks() returns (rolled: nat)
      modifies this
      ensures State() == RolledUp(old(State()))
      ensures rolled == |FinishedGroups(old(State()))|
    {
      var groups := set id | id in raw && raw[id].day < today :: GroupOf(raw[id]);
      daily := daily + map g | g in groups :: Summarise(RowsOf(raw, g));
      rolled := |groups|;
    }

    // DELETE ... WHERE id IN (SELECT ... LIMIT limit)
    method DeleteUpTo(limit: nat) returns (deleted: nat, ghost picked: set<nat>)
      modifies this
      ensures LegalPick(picked, Eligible(old(State()), keepDays), limit)
      ensures State() == Without(old(State()), picked)
      ensures deleted == |picked|
    {
      var expired := set id | id in raw && raw[id].day < today - keepDays && GroupOf(raw[id]) in daily;
      var chosen := PickUpTo(expired, limit);
      raw := raw - chosen;
      deleted, picked := |chosen|, chosen;
    }

    /** `lasts` is how many statements go through before one throws. The count is
        exactly the rows removed. The run ends by a short batch, which leaves no
        eligible row, exactly when there were fewer rows than batches for them. */
    method PruneOldChecks(lasts: nat) returns (ok: bool, deletedTotal: nat, ghost removed: set<nat>, ghost early: bool)
      modifies this
      ensures LegalPick(removed, Eligible(old(State()), keepDays), Capacity(lasts))
      ensures State() == Without(old(State()), removed)
      ensures deletedTotal == |removed|
      ensures early <==> |Eligible(old(State()), keepDays)| < Capacity(lasts)
      ensures early ==> Eligible(State(), keepDays) == {}
      ensures lasts >= 200 ==> (early <==> |Eligible(old(State()), keepDays)| < 2_000_000)
      ensures ok <==> early || lasts >= MAX_BATCHES_PER_RUN
    {
      ok, deletedTotal, removed, early := true, 0, {}, false;
      ghost var all := Eligible(State(), keepDays);
      for batch := 0 to MAX_BATCHES_PER_RUN
        invariant batch <= lasts
        invariant State() == Without(old(State()), removed)
        invariant removed <= all && deletedTotal == |removed| == batch * DELETE_BATCH_SIZE
        invariant !early && ok
      {
        if batch == lasts {
          SubsetSizes(removed, all);
          ok := false;
          return;
        }
        EligibleAfter(old(State()), removed, keepDays);
        var deleted, picked := DeleteUpTo(DELETE_BATCH_SIZE);
        ghost var before := removed;
        removed := before + picked;
        OneMoreBatch(all, before, picked);
        WithoutTwice(old(State()), before, picked);
        deletedTotal := deletedTotal + deleted;
        if deleted < DELETE_BATCH_SIZE {
          EligibleAfter(old(State()), removed, keepDays);
          early := true;
          return;
        }
      }
      SubsetSizes(removed, all);
    }

    method RunRetentionCycle(lasts: nat) returns (ok: bool, rolled: nat, pruned: nat, ghost removed: set<nat>)
      modifies this
      ensures LegalPick(removed, Eligible(RolledUp(old(State())), keepDays), Capacity(lasts))
      ensures State() == Without(RolledUp(old(State())), removed)
      ensures rolled == |FinishedGroups(old(State()))| && pruned == |removed|
      ensures Sound(old(State()), keepDays) && NoHalfDeletedDay(old(State())) ==> Sound(State(), keepDays)
      ensures Sound(old(State()), keepDays) && NoHalfDeletedDay(old(State())) && pruned < Capacity(lasts) ==>
                NoHalfDeletedDay(State()) && Eligible(State(), keepDays) == {}
      ensures pruned < Capacity(lasts) ==> forall id :: id in raw ==> raw[id].day >= today - keepDays
    {
      rolled := RollupDailyChecks();
      ghost var early;
      ok, pruned, removed, early := PruneOldChecks(lasts);
      if early {
        forall id | id in raw ensures raw[id].day >= today - keepDays {
          NothingExpiredIsLeft(old(State()), removed, keepDays, id);
        }
      }
      if Sound(old(State()), keepDays) && NoHalfDeletedDay(old(State())) {
        RollUpStaysTrue(old(State()), keepDays);
        DeletingStaysSound(RolledUp(old(State())), removed, keepDays);
        if early {
          AllEligibleGone(State(), keepDays);
        }
      }
    }
  }

  lemma NothingExpiredIsLeft(s: Store, removed: set<nat>, keepDays: nat, id: nat)
    requires Eligible(Without(RolledUp(s), removed), keepDays) == {} && id in s.raw && id !in removed
    ensures s.raw[id].day >= s.today - keepDays
  {
    RollUpCoversFinishedDays(s, id);
    assert id !in Eligible(Without(RolledUp(s), removed), keepDays);
  }

  lemma EligibleAfter(s: Store, removed: set<nat>, keepDays: nat)
    ensures Eligible(Without(s, removed), keepDays) == Eligible(s, keepDays) - removed
  {
  }
}
