/**
 What a status page says, read off its parts: which monitors it shows, in which
 order and under which names, and which overall state follows from them; and
 what an edit of a page does to pages and cache.
 */
module PageContents {
  import opened Common
  import opened MonitorEngine
  import opened StatusPage

  // ---------------------------------------------------------------- Entries

  predicate IsShown(e: Entry, monitors: map<nat, MonitorInfo>) {
    e.monitorId in monitors && monitors[e.monitorId].isActive
  }

  /** One entry shows its monitor if that exists and is active: under its alias,
      or by its own name where it has none, with its status, and whether `now` is
      in its maintenance window, ends included. */
  lemma ShowsOne(e: Entry, monitors: map<nat, MonitorInfo>, now: int)
    ensures !IsShown(e, monitors) ==> Show([e], monitors, now) == []
    ensures IsShown(e, monitors) ==>
              var r, m := Show([e], monitors, now), monitors[e.monitorId];
              && |r| == 1 && r[0].id == e.monitorId && r[0].status == m.status
              && (e.displayName.Some? ==> r[0].name == e.displayName.value)
              && (e.displayName.None? ==> r[0].name == m.name)
              && (r[0].underMaintenance <==>
                    m.maintenanceStartAt.Some? && m.maintenanceEndAt.Some? &&
                    m.maintenanceStartAt.value <= now && now <= m.maintenanceEndAt.value)
  {
    assert Show([e][1..], monitors, now) == [];
  }

  /** The entries are shown one after the other, in the order of the page. */
  lemma {:induction false} ShowsInOrder(a: seq<Entry>, b: seq<Entry>, monitors: map<nat, MonitorInfo>, now: int)
    ensures Show(a + b, monitors, now) == Show(a, monitors, now) + Show(b, monitors, now)
  {
    if a == [] {
      assert a + b == b;
    } else {
      assert (a + b)[1..] == a[1..] + b;
      ShowsInOrder(a[1..], b, monitors, now);
    }
  }

  // ---------------------------------------------------------------- State

  predicate IsOut(m: Shown) { m.status.Down? && !m.underMaintenance }

  lemma {:induction false} CountsEach(monitors: seq<Shown>, counts: Shown -> bool)
    ensures HowMany(monitors, counts) == |set i: nat | i < |monitors| && counts(monitors[i])|
  {
    if monitors == [] {
    } else {
      var n := |monitors| - 1;
      var front := monitors[..n];
      CountsEach(front, counts);
      assert (set i: nat | i < |monitors| && counts(monitors[i])) ==
             (set i: nat | i < |front| && counts(front[i])) + if counts(monitors[n]) then {n} else {};
    }
  }

  lemma {:induction false} NoneOrAll(monitors: seq<Shown>, counts: Shown -> bool)
    ensures HowMany(monitors, counts) <= |monitors|
    ensures HowMany(monitors, counts) == 0 <==> forall i :: 0 <= i < |monitors| ==> !counts(monitors[i])
    ensures HowMany(monitors, counts) == |monitors| <==> forall i :: 0 <= i < |monitors| ==> counts(monitors[i])
  {
    if monitors == [] {
    } else {
      NoneOrAll(monitors[..|monitors| - 1], counts);
    }
  }

  /** The four figures count the monitors shown: all of them, those that are DOWN
      outside maintenance, those that are PAUSED, and those in maintenance. */
  lemma FiguresCount(page: Page, monitors: map<nat, MonitorInfo>, now: int)
    ensures var b := Rendered(page, monitors, now);
      && b.metrics.total == |b.monitors|
      && b.metrics.down == |set i: nat | i < |b.monitors| && IsOut(b.monitors[i])|
      && b.metrics.paused == |set i: nat | i < |b.monitors| && b.monitors[i].status.Paused?|
      && b.metrics.maintenance == |set i: nat | i < |b.monitors| && b.monitors[i].underMaintenance|
  {
    var shown := Show(page.entries, monitors, now);
    CountsEach(shown, (m: Shown) => m.status.Down? && !m.underMaintenance);
    CountsEach(shown, (m: Shown) => m.status.Paused?);
    CountsEach(shown, (m: Shown) => m.underMaintenance);
    assert (set i: nat | i < |shown| && IsOut(shown[i])) ==
           (set i: nat | i < |shown| && ((m: Shown) => m.status.Down? && !m.underMaintenance)(shown[i]));
    assert (set i: nat | i < |shown| && shown[i].status.Paused?) ==
           (set i: nat | i < |shown| && ((m: Shown) => m.status.Paused?)(shown[i]));
    assert (set i: nat | i < |shown| && shown[i].underMaintenance) ==
           (set i: nat | i < |shown| && ((m: Shown) => m.underMaintenance)(shown[i]));
  }

  predicate NoneOut(monitors: seq<Shown>) { forall i :: 0 <= i < |monitors| ==> !IsOut(monitors[i]) }

  predicate AllOut(monitors: seq<Shown>) { forall i :: 0 <= i < |monitors| ==> IsOut(monitors[i]) }

  predicate NoneInMaintenance(monitors: seq<Shown>) {
    forall i :: 0 <= i < |monitors| ==> !monitors[i].underMaintenance
  }

  lemma OutagesCounted(monitors: seq<Shown>)
    ensures var m := Measured(monitors);
      && (m.down == 0 <==> NoneOut(monitors)) && (m.down == m.total <==> AllOut(monitors))
      && (m.maintenance == 0 <==> NoneInMaintenance(monitors))
  {
    NoneOrAll(monitors, (m: Shown) => m.status.Down? && !m.underMaintenance);
    NoneOrAll(monitors, (m: Shown) => m.underMaintenance);
  }

  /** A major outage if every monitor shown is out, a partial one if some are, and
      with none out maintenance if any is in it. The page carries its own title and
      description, the entries it shows, and the time it was rendered. */
  lemma PageTells(page: Page, monitors: map<nat, MonitorInfo>, now: int)
    ensures var b := Rendered(page, monitors, now);
      && (b.state.MajorOutage? <==> !NoneOut(b.monitors) && AllOut(b.monitors))
      && (b.state.PartialOutage? <==> !NoneOut(b.monitors) && !AllOut(b.monitors))
      && (b.state.InMaintenance? <==> NoneOut(b.monitors) && !NoneInMaintenance(b.monitors))
      && (b.state.Operational? <==> NoneOut(b.monitors) && NoneInMaintenance(b.monitors))
      && b.title == page.title && b.description == page.description && b.generatedAt == now
      && b.monitors == Show(page.entries, monitors, now)
  {
    OutagesCounted(Show(page.entries, monitors, now));
  }

  // ----------------------------------------------------------------- Edits

  /** An edit is taken if every entry is a monitor of the workspace, none is there
      twice, and no other workspace has the slug. */
  predicate MayEdit(s: Site, w: nat, input: Page) {
    && (forall i :: 0 <= i < |input.entries| ==>
          input.entries[i].monitorId in s.monitors && s.monitors[input.entries[i].monitorId].workspace == w)
    && (forall i, j :: 0 <= i < |input.entries| && 0 <= j < |input.entries| && i != j ==>
          input.entries[i].monitorId != input.entries[j].monitorId)
    && (forall v :: v in s.pages && s.pages[v].slug == input.slug ==> v == w)
  }

  lemma EditLandsIff(s: Site, w: nat, input: Page)
    ensures MayEdit(s, w, input) ==>
      var t := Upserted(s, w, input);
      && t.pages == s.pages[w := input] && t.monitors == s.monitors && t.clock == s.clock
      && (forall slug :: slug in t.cache <==>
            slug in s.cache && slug != input.slug && (w in s.pages ==> slug != s.pages[w].slug))
      && (forall slug :: slug in t.cache ==> t.cache[slug] == s.cache[slug])
    ensures !MayEdit(s, w, input) ==> Upserted(s, w, input) == s
  {
    if !MayEdit(s, w, input) {
      assert !Accepted(s, w, input);
    }
  }

  /** Deleting a page takes the page and its entry in the cache, and nothing else. */
  lemma DeletionTakesPage(s: Site, w: nat)
    ensures var t := Deleted(s, w);
      && (forall v :: v in t.pages <==> v in s.pages && v != w)
      && (forall v :: v in t.pages ==> t.pages[v] == s.pages[v])
      && (forall slug :: slug in t.cache <==> slug in s.cache && (w in s.pages ==> slug != s.pages[w].slug))
      && (forall slug :: slug in t.cache ==> t.cache[slug] == s.cache[slug])
  {
  }
}
