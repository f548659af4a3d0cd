/**
 The public status page: rows written by the page service, read through a cache
 of 30 seconds per slug that every edit has to invalidate. Requests are atomic
 and Redis is up.
 */
module StatusPage {
  import opened Common
  import opened MonitorEngine

  const STATUS_CACHE_TTL_MS := 30 * 1000

  datatype MonitorInfo = MonitorInfo(workspace: nat, name: string, status: Status, isActive: bool,
                                     maintenanceStartAt: Option<int>, maintenanceEndAt: Option<int>)

  datatype Entry = Entry(monitorId: nat, displayName: Option<string>)

  datatype Page = Page(slug: string, title: string, description: Option<string>, isPublic: bool, entries: seq<Entry>)

  datatype Shown = Shown(id: nat, name: string, status: Status, underMaintenance: bool)

  datatype SystemState = Operational | PartialOutage | MajorOutage | InMaintenance

  datatype Metrics = Metrics(total: nat, down: nat, paused: nat, maintenance: nat)

  datatype Body = Body(title: string, description: Option<string>, state: SystemState, metrics: Metrics,
                       monitors: seq<Shown>, generatedAt: int)

  // `seen` is the monitor table the body was rendered from.
  datatype Cached = Cached(body: Body, expiresAt: int, seen: map<nat, MonitorInfo>)

  // Pages by workspace, cache by slug.
  datatype Site = Site(clock: int, pages: map<nat, Page>, monitors: map<nat, MonitorInfo>, cache: map<string, Cached>)

  function Show(entries: seq<Entry>, monitors: map<nat, MonitorInfo>, now: int): seq<Shown> {
    if entries == [] then []
    else
      var e := entries[0];
      var rest := Show(entries[1..], monitors, now);
      if e.monitorId in monitors && monitors[e.monitorId].isActive
      then
        var m := monitors[e.monitorId];
        var inWindow := InWindow(m.maintenanceStartAt, m.maintenanceEndAt, now);
        [Shown(e.monitorId, e.displayName.GetOr(m.name), m.status, inWindow)] + rest
      else rest
  }

  function HowMany(monitors: seq<Shown>, counts: Shown -> bool): nat {
    if monitors == [] then 0
    else HowMany(monitors[..|monitors| - 1], counts) + if counts(monitors[|monitors| - 1]) then 1 else 0
  }

  function Measured(monitors: seq<Shown>): Metrics {
    Metrics(|monitors|,
            HowMany(monitors, (m: Shown) => m.status.Down? && !m.underMaintenance),
            HowMany(monitors, (m: Shown) => m.status.Paused?),
            HowMany(monitors, (m: Shown) => m.underMaintenance))
  }

  function StateOf(m: Metrics): SystemState {
    if m.down > 0 then (if m.down == m.total then MajorOutage else PartialOutage)
    else if m.maintenance > 0 then InMaintenance
    else Operational
  }

  function Rendered(page: Page, monitors: map<nat, MonitorInfo>, now: int): Body {
    var shown := Show(page.entries, monitors, now);
    Body(page.title, page.description, StateOf(Measured(shown)), Measured(shown), shown, now)
  }

  // -------------------------------------------------------------- Requests

  predicate AllOwned(entries: seq<Entry>, monitors: map<nat, MonitorInfo>, workspace: nat) {
    forall i :: 0 <= i < |entries| ==>
      entries[i].monitorId in monitors && monitors[entries[i].monitorId].workspace == workspace
  }

  predicate SlugTaken(pages: map<nat, Page>, slug: string, workspace: nat) {
    exists w :: w in pages && w != workspace && pages[w].slug == slug
  }

  predicate NoMonitorTwice(entries: seq<Entry>) {
    forall i, j :: 0 <= i < j < |entries| ==> entries[i].monitorId != entries[j].monitorId
  }

  predicate Accepted(s: Site, workspace: nat, input: Page) {
    AllOwned(input.entries, s.monitors, workspace) && !SlugTaken(s.pages, input.slug, workspace) &&
    NoMonitorTwice(input.entries)
  }

  function Upserted(s: Site, workspace: nat, input: Page): Site {
    if !Accepted(s, workspace, input) then s
    else
      var stale := if workspace in s.pages then {s.pages[workspace].slug, input.slug} else {input.slug};
      s.(pages := s.pages[workspace := input], cache := s.cache - stale)
  }

  function Deleted(s: Site, workspace: nat): Site {
    if workspace !in s.pages then s
    else s.(pages := s.pages - {workspace}, cache := s.cache - {s.pages[workspace].slug})
  }

  predicate IsHit(s: Site, slug: string) { slug in s.cache && s.clock < s.cache[slug].expiresAt }

  // findUnique by slug
  predicate Found(pages: map<nat, Page>, slug: string, found: Option<nat>) {
    if found.Some? then found.value in pages && pages[found.value].slug == slug
    else forall w :: w in pages ==> pages[w].slug != slug
  }

  // None is the 404 of a missing or unpublished page.
  function Answer(s: Site, slug: string, found: Option<nat>): Option<Body>
    requires Found(s.pages, slug, found)
  {
    if IsHit(s, slug) then Some(s.cache[slug].body)
    else if found.Some? && s.pages[found.value].isPublic then
      Some(Rendered(s.pages[found.value], s.monitors, s.clock))
    else None
  }

  function Viewed(s: Site, slug: string, found: Option<nat>): Site
    requires Found(s.pages, slug, found)
  {
    if IsHit(s, slug) || Answer(s, slug, found).None? then s
    else s.(cache := s.cache[slug := Cached(Answer(s, slug, found).value, s.clock + STATUS_CACHE_TTL_MS, s.monitors)])
  }

  // Deleting workspaces, by themselves or with their owner's account, cascades
  // to their pages and monitors, but not to the cache.
  function WorkspacesDeleted(s: Site, gone: set<nat>): Site {
    s.(pages := s.pages - gone,
       monitors := map id | id in s.monitors && s.monitors[id].workspace !in gone :: s.monitors[id])
  }

  datatype Step =
    | Wait(ms: nat)
    | Upsert(workspace: nat, input: Page)
    | Delete(workspace: nat)
    | View(slug: string, found: Option<nat>)
    | MonitorsChange(monitors: map<nat, MonitorInfo>)
    | DeleteWorkspaces(gone: set<nat>)

  predicate Enabled(s: Site, step: Step) {
    step.View? ==> Found(s.pages, step.slug, step.found)
  }

  function Next(s: Site, step: Step): Site
    requires Enabled(s, step)
  {
    match step
    case Wait(ms) => s.(clock := s.clock + ms)
    case Upsert(w, input) => Upserted(s, w, input)
    case Delete(w) => Deleted(s, w)
    case View(slug, found) => Viewed(s, slug, found)
    case MonitorsChange(monitors) => s.(monitors := monitors)
    case DeleteWorkspaces(gone) => WorkspacesDeleted(s, gone)
  }

  predicate Executable(s: Site, steps: seq<Step>)
    decreases |steps|, 0
  {
    steps == [] ||
    (Executable(s, steps[..|steps| - 1]) && Enabled(Exec(s, steps[..|steps| - 1]), steps[|steps| - 1]))
  }

  function Exec(s: Site, steps: seq<Step>): Site
    requires Executable(s, steps)
    decreases |steps|, 1
  {
    if steps == [] then s else Next(Exec(s, steps[..|steps| - 1]), steps[|steps| - 1])
  }

  function Empty(clock: int): Site { Site(clock, map[], map[], map[]) }

  // ------------------------------------------------------------- Coherence

  predicate SlugsUnique(pages: map<nat, Page>) {
    forall v, w :: v in pages && w in pages && pages[v].slug == pages[w].slug ==> v == w
  }

  // The cached body is what page w renders to, from the monitors as they were
  // when it was generated.
  predicate CurrentFor(s: Site, slug: string, w: nat) {
    slug in s.cache && w in s.pages && s.pages[w].slug == slug && s.pages[w].isPublic &&
    s.cache[slug].body == Rendered(s.pages[w], s.cache[slug].seen, s.cache[slug].body.generatedAt)
  }

  predicate NoPageHas(pages: map<nat, Page>, slug: string) { forall w :: w in pages ==> pages[w].slug != slug }

  // A cached entry is current for the page of its slug, or no page has the slug.
  predicate EntryCoherent(s: Site, slug: string) {
    slug in s.cache ==>
      && ((exists w :: w in s.pages && CurrentFor(s, slug, w)) || NoPageHas(s.pages, slug))
      && s.cache[slug].expiresAt == s.cache[slug].body.generatedAt + STATUS_CACHE_TTL_MS
      && s.cache[slug].body.generatedAt <= s.clock
  }

  predicate Coherent(s: Site) {
    SlugsUnique(s.pages) && forall slug :: slug in s.cache ==> EntryCoherent(s, slug)
  }

  lemma EntrySurvives(s: Site, t: Site, slug: string)
    requires slug in s.cache && EntryCoherent(s, slug) && slug in t.cache && t.cache[slug] == s.cache[slug]
    requires SlugsUnique(s.pages) && s.clock <= t.clock
    requires forall w :: w in t.pages && t.pages[w].slug == slug ==> w in s.pages && s.pages[w] == t.pages[w]
    requires forall w :: w in s.pages && s.pages[w].slug == slug && w in t.pages ==> t.pages[w] == s.pages[w]
    ensures EntryCoherent(t, slug)
  {
    if w :| w in s.pages && CurrentFor(s, slug, w) {
      assert w in t.pages ==> CurrentFor(t, slug, w);
    }
  }

  // No step edits a page whose slug stays in the cache.
  lemma PageOfKeptEntry(s: Site, step: Step, slug: string, w: nat)
    requires Enabled(s, step) && slug in s.cache && slug in Next(s, step).cache
    requires Next(s, step).cache[slug] == s.cache[slug]
    ensures var t := Next(s, step);
      && (w in t.pages && t.pages[w].slug == slug ==> w in s.pages && s.pages[w] == t.pages[w])
      && (w in s.pages && s.pages[w].slug == slug && w in t.pages ==> t.pages[w] == s.pages[w])
  {
  }

  lemma KeptEntrySurvives(s: Site, step: Step, slug: string)
    requires Coherent(s) && Enabled(s, step) && slug in s.cache
    requires slug in Next(s, step).cache && Next(s, step).cache[slug] == s.cache[slug]
    ensures EntryCoherent(Next(s, step), slug)
  {
    var t := Next(s, step);
    forall w ensures (w in t.pages && t.pages[w].slug == slug ==> w in s.pages && s.pages[w] == t.pages[w]) &&
                     (w in s.pages && s.pages[w].slug == slug && w in t.pages ==> t.pages[w] == s.pages[w])
    {
      PageOfKeptEntry(s, step, slug, w);
    }
    EntrySurvives(s, t, slug);
  }

  lemma NewEntryIsCurrent(s: Site, step: Step, slug: string)
    requires Enabled(s, step) && slug in Next(s, step).cache
    requires !(slug in s.cache && Next(s, step).cache[slug] == s.cache[slug])
    ensures EntryCoherent(Next(s, step), slug) && !NoPageHas(Next(s, step).pages, slug)
  {
    assert CurrentFor(Next(s, step), slug, step.found.value);
  }

  lemma StepKeepsSlugsUnique(s: Site, step: Step)
    requires SlugsUnique(s.pages) && Enabled(s, step)
    ensures SlugsUnique(Next(s, step).pages)
  {
  }

  lemma StepKeepsCoherence(s: Site, step: Step)
    requires Coherent(s) && Enabled(s, step)
    ensures Coherent(Next(s, step))
  {
    StepKeepsSlugsUnique(s, step);
    forall slug | slug in Next(s, step).cache
      ensures EntryCoherent(Next(s, step), slug)
    {
      if slug in s.cache && Next(s, step).cache[slug] == s.cache[slug] {
        KeptEntrySurvives(s, step, slug);
      } else {
        NewEntryIsCurrent(s, step, slug);
      }
    }
  }

  lemma {:induction false} RunKeepsCoherence(clock: int, steps: seq<Step>)
    requires Executable(Empty(clock), steps)
    ensures Coherent(Exec(Empty(clock), steps))
  {
    if steps == [] {
    } else {
      RunKeepsCoherence(clock, steps[..|steps| - 1]);
      StepKeepsCoherence(Exec(Empty(clock), steps[..|steps| - 1]), steps[|steps| - 1]);
    }
  }

  // At time t of the run the monitor table was `monitors`.
  predicate MonitorsWere(clock: int, steps: seq<Step>, t: int, monitors: map<nat, MonitorInfo>)
    requires Executable(Empty(clock), steps)
  {
    (Exec(Empty(clock), steps).clock == t && Exec(Empty(clock), steps).monitors == monitors) ||
    (steps != [] && MonitorsWere(clock, steps[..|steps| - 1], t, monitors))
  }

  lemma {:induction false} CachedFromThePast(clock: int, steps: seq<Step>, slug: string)
    requires Executable(Empty(clock), steps) && slug in Exec(Empty(clock), steps).cache
    ensures var c := Exec(Empty(clock), steps).cache[slug];
            MonitorsWere(clock, steps, c.body.generatedAt, c.seen)
  {
    var front := steps[..|steps| - 1];
    var before, after := Exec(Empty(clock), front), Exec(Empty(clock), steps);
    if slug in before.cache && after.cache[slug] == before.cache[slug] {
      CachedFromThePast(clock, front, slug);
    } else {
      assert after.clock == after.cache[slug].body.generatedAt && after.monitors == after.cache[slug].seen;
    }
  }

  // A deletion that takes the page a cached entry is current for.
  predicate Takes(s: Site, step: Step, slug: string) {
    step.DeleteWorkspaces? && exists w :: w in s.pages && w in step.gone && CurrentFor(s, slug, w)
  }

  // The body was current for a page when a deletion of its workspace took it.
  predicate LeftByDeletion(clock: int, steps: seq<Step>, slug: string, body: Body)
    requires Executable(Empty(clock), steps)
  {
    steps != [] &&
    var before, last := Exec(Empty(clock), steps[..|steps| - 1]), steps[|steps| - 1];
    (LeftByDeletion(clock, steps[..|steps| - 1], slug, body) ||
     (Takes(before, last, slug) && before.cache[slug].body == body))
  }

  // A step that leaves a cached slug without a page: it had none, or a deletion
  // took its workspace.
  lemma OrphanedBy(s: Site, step: Step, slug: string)
    requires Enabled(s, step) && Coherent(s)
    requires slug in Next(s, step).cache && NoPageHas(Next(s, step).pages, slug)
    ensures slug in s.cache && Next(s, step).cache[slug] == s.cache[slug]
    ensures NoPageHas(s.pages, slug) || Takes(s, step, slug)
  {
    if !(slug in s.cache && Next(s, step).cache[slug] == s.cache[slug]) {
      NewEntryIsCurrent(s, step, slug);
    }
    assert EntryCoherent(s, slug);
    if !NoPageHas(s.pages, slug) {
      var w :| w in s.pages && CurrentFor(s, slug, w);
      assert w !in Next(s, step).pages;
    }
  }

  lemma {:induction false} OrphansAreLeftByDeletion(clock: int, steps: seq<Step>, slug: string)
    requires Executable(Empty(clock), steps)
    requires slug in Exec(Empty(clock), steps).cache && NoPageHas(Exec(Empty(clock), steps).pages, slug)
    ensures LeftByDeletion(clock, steps, slug, Exec(Empty(clock), steps).cache[slug].body)
  {
    var front := steps[..|steps| - 1];
    RunKeepsCoherence(clock, front);
    OrphanedBy(Exec(Empty(clock), front), steps[|steps| - 1], slug);
    if NoPageHas(Exec(Empty(clock), front).pages, slug) {
      OrphansAreLeftByDeletion(clock, front, slug);
    }
  }

  /** Whatever was edited, renamed, deleted or reused before: an answer for a page,
      cached or not, is given exactly if the page is public now, and has its
      current title, description and entry list. Only what is read from the
      monitors can be old: it is from a moment less than 30 seconds ago. Where
      there is no page, the only answer is one less than 30 seconds old for a page
      that went with its workspace. */
  lemma EveryAnswerIsCurrent(clock: int, steps: seq<Step>, slug: string, found: Option<nat>)
    requires Executable(Empty(clock), steps)
    requires Found(Exec(Empty(clock), steps).pages, slug, found)
    ensures var s := Exec(Empty(clock), steps);
      var answer := Answer(s, slug, found);
      && (answer.Some? ==>
            answer.value.generatedAt <= s.clock < answer.value.generatedAt + 30_000)
      && (found.Some? ==>
            && (answer.Some? <==> s.pages[found.value].isPublic)
            && (answer.Some? ==> answer.value.title == s.pages[found.value].title &&
                                 answer.value.description == s.pages[found.value].description)
            && (answer.Some? ==>
                  exists seen :: MonitorsWere(clock, steps, answer.value.generatedAt, seen) &&
                                 answer.value == Rendered(s.pages[found.value], seen, answer.value.generatedAt)))
      && (found.None? ==>
            && (answer.Some? <==> IsHit(s, slug))
            && (answer.Some? ==> LeftByDeletion(clock, steps, slug, answer.value)))
  {
    RunKeepsCoherence(clock, steps);
    var s := Exec(Empty(clock), steps);
    if IsHit(s, slug) {
      assert EntryCoherent(s, slug);
      if found.Some? {
        var w :| w in s.pages && CurrentFor(s, slug, w);
        assert found == Some(w);
        CachedFromThePast(clock, steps, slug);
      } else {
        OrphansAreLeftByDeletion(clock, steps, slug);
      }
    } else if found.Some? && s.pages[found.value].isPublic {
      assert MonitorsWere(clock, steps, s.clock, s.monitors);
    }
  }

  /** Deleting a workspace leaves its public page visible to everyone exactly if
      the page was in the cache: until the entry expires it answers for a page
      that no longer exists. */
  lemma DeletedWorkspaceStaysVisibleIff(s: Site, w: nat)
    requires Coherent(s) && w in s.pages
    ensures var t := WorkspacesDeleted(s, {w});
            var slug := s.pages[w].slug;
            Found(t.pages, slug, None) && (Answer(t, slug, None).Some? <==> IsHit(s, slug))
  {
    var t := WorkspacesDeleted(s, {w});
    forall v | v in t.pages ensures t.pages[v].slug != s.pages[w].slug {
      assert v in s.pages && v != w;
    }
  }

  // A page is published, viewed, and its workspace deleted.
  function Farewell(w: nat, page: Page): seq<Step> {
    [Upsert(w, page), View(page.slug, Some(w)), DeleteWorkspaces({w})]
  }

  lemma ExecOneMore(s: Site, steps: seq<Step>, step: Step)
    requires Executable(s, steps) && Enabled(Exec(s, steps), step)
    ensures Executable(s, steps + [step]) && Exec(s, steps + [step]) == Next(Exec(s, steps), step)
  {
    assert (steps + [step])[..|steps|] == steps;
  }

  /** Such a run, for any public page without monitors: it still answers, with no
      page left. */
  lemma FarewellIsStillShown(clock: int, w: nat, page: Page)
    requires page.isPublic && page.entries == []
    ensures Executable(Empty(clock), Farewell(w, page))
    ensures var s := Exec(Empty(clock), Farewell(w, page));
            s.pages == map[] && Found(s.pages, page.slug, None) &&
            Answer(s, page.slug, None) == Some(Rendered(page, map[], clock))
  {
    var s := Empty(clock);
    ExecOneMore(s, [], Upsert(w, page));
    var published := [] + [Upsert(w, page)];
    ExecOneMore(s, published, View(page.slug, Some(w)));
    ExecOneMore(s, published + [View(page.slug, Some(w))], DeleteWorkspaces({w}));
    assert Farewell(w, page) == published + [View(page.slug, Some(w))] + [DeleteWorkspaces({w})];
  }

  // -------------------------------------------------- The code as written

  class StatusPages {
    var clock: int
    var pages: map<nat, Page>
    var monitors: map<nat, MonitorInfo>
    var cache: map<string, Cached>

    ghost function State(): Site
      reads this
    {
      Site(clock, pages, monitors, cache)
    }

    constructor (clock: int)
      ensures State() == Empty(clock)
    {
      this.clock := clock;
      pages, monitors, cache := map[], map[], map[];
    }

    method FindBySlug(slug: string) returns (found: Option<nat>)
      ensures Found(pages, slug, found)
    {
      var rest := pages.Keys;
      while rest != {}
        invariant rest <= pages.Keys
        invariant forall w :: w in pages && w !in rest ==> pages[w].slug != slug
        decreases rest
      {
        var w :| w in rest;
        if pages[w].slug == slug { return Some(w); }
        rest := rest - {w};
      }
      return None;
    }

    method Invalidate(slug: string)
      modifies this`cache
      ensures cache == old(cache) - {slug}
    {
      cache := cache - {slug};
    }

    method HasForeign(entries: seq<Entry>, workspace: nat) returns (foreign: bool)
      ensures foreign <==> !AllOwned(entries, monitors, workspace)
    {
      for i := 0 to |entries|
        invariant forall k :: 0 <= k < i ==>
          entries[k].monitorId in monitors && monitors[entries[k].monitorId].workspace == workspace
      {
        var id := entries[i].monitorId;
        if id !in monitors || monitors[id].workspace != workspace { return true; }
      }
      return false;
    }

    method UpsertStatusPage(workspace: nat, input: Page) returns (ok: bool)
      requires SlugsUnique(pages)
      modifies this
      ensures ok == Accepted(old(State()), workspace, input)
      ensures State() == Upserted(old(State()), workspace, input)
    {
      var foreign := HasForeign(input.entries, workspace);
      if foreign { return false; }
      var existing := if workspace in pages then Some(pages[workspace].slug) else None;
      var slugOwner := FindBySlug(input.slug);
      if slugOwner.Some? && slugOwner.value != workspace { return false; }
      // StatusPageMonitor_statusPageId_monitorId_key
      if !NoMonitorTwice(input.entries) { return false; }
      pages := pages[workspace := input];
      if existing.Some? { Invalidate(existing.value); }
      Invalidate(input.slug);
      return true;
    }

    method DeleteStatusPage(workspace: nat) returns (deleted: bool)
      modifies this
      ensures deleted == (workspace in old(pages))
      ensures State() == Deleted(old(State()), workspace)
    {
      if workspace !in pages { return false; }
      var slug := pages[workspace].slug;
      pages := pages - {workspace};
      Invalidate(slug);
      return true;
    }

    method ViewPage(slug: string) returns (body: Option<Body>, ghost found: Option<nat>)
      modifies this
      ensures Found(old(pages), slug, found)
      ensures body == Answer(old(State()), slug, found)
      ensures State() == Viewed(old(State()), slug, found)
    {
      var row := FindBySlug(slug);
      found := row;
      if slug in cache && clock < cache[slug].expiresAt {
        return Some(cache[slug].body), found;
      }
      if row.None? || !pages[row.value].isPublic { return None, found; }
      var page := pages[row.value];
      var shown := Show(page.entries, monitors, clock);
      var total := |shown|;
      var down := HowMany(shown, (m: Shown) => m.status.Down? && !m.underMaintenance);
      var paused := HowMany(shown, (m: Shown) => m.status.Paused?);
      var maintenance := HowMany(shown, (m: Shown) => m.underMaintenance);
      var degraded := if down > 0 then (if down == total then MajorOutage else PartialOutage)
                      else if maintenance > 0 then InMaintenance else Operational;
      var rendered := Body(page.title, page.description, degraded, Metrics(total, down, paused, maintenance),
                           shown, clock);
      cache := cache[slug := Cached(rendered, clock + STATUS_CACHE_TTL_MS, monitors)];
      return Some(rendered), found;
    }
  }
}
