/**
 Workspaces, their members and their invites: who owns a workspace, and how many
 people an invite can bring in. Each request is one atomic step; who may send
 which request is left open, so what is proved holds for every caller.
 */
module Workspaces {
  import opened Common

  const DEFAULT_LIFETIME_MS := 7 * 24 * 60 * 60 * 1000
  const MS_PER_HOUR := 60.0 * 60.0 * 1000.0
  const INT_MAX := 0x7FFF_FFFF

  datatype Role = Owner | Admin | Member | Viewer

  // An invite with an e-mail address is for one person, one without is a link.
  datatype Invite = Invite(workspace: nat, email: Option<string>, role: Role, expiresAt: Option<int>,
                           maxUses: Option<int>, useCount: nat) {
    predicate IsLink() { email.None? }

    predicate IsExpired(now: int) { expiresAt.Some? && now > expiresAt.value }

    predicate UsesExhausted() { maxUses.Some? && useCount >= maxUses.value }
  }

  // `users` holds addresses, `workspaces` slugs; members go by (user, workspace).
  datatype Team = Team(clock: int, users: map<nat, string>, workspaces: map<nat, string>,
                       members: map<(nat, nat), Role>, invites: map<nat, Invite>,
                       nextUser: nat, nextWorkspace: nat, nextInvite: nat)

  datatype Lifetime = Forever | Default | Hours(n: real)

  // No addresses: a shareable link. Addresses: one invite each.
  datatype Request = Request(role: string, emails: seq<string>, lifetime: Lifetime, maxUses: Option<real>)

  function NormalizeRole(role: string): Role {
    if role == "ADMIN" then Admin else if role == "MEMBER" then Member else Viewer
  }

  function ComputeExpiry(now: int, lifetime: Lifetime): Option<int> {
    match lifetime
    case Forever => None
    case Default => Some(now + DEFAULT_LIFETIME_MS)
    case Hours(n) => if n <= 0.0 then None else Some(now + (n * MS_PER_HOUR).Floor)
  }

  function MaxUses(raw: Option<real>): Option<int> {
    if raw.None? then None else Some(if raw.value.Floor < 1 then 1 else raw.value.Floor)
  }

  // -------------------------------------------------------------- Requests

  predicate SlugFree(s: Team, slug: string) { forall w :: w in s.workspaces ==> s.workspaces[w] != slug }

  function WorkspaceCreated(s: Team, user: nat, slug: string): Team {
    if user !in s.users || !SlugFree(s, slug) then s
    else s.(workspaces := s.workspaces[s.nextWorkspace := slug],
            members := s.members[(user, s.nextWorkspace) := Owner],
            nextWorkspace := s.nextWorkspace + 1)
  }

  function LinkCreated(s: Team, w: nat, req: Request): Team {
    var maxUses := MaxUses(req.maxUses);
    if maxUses.Some? && maxUses.value > INT_MAX then s
    else
      var invite := Invite(w, None, NormalizeRole(req.role), ComputeExpiry(s.clock, req.lifetime), maxUses, 0);
      s.(invites := s.invites[s.nextInvite := invite], nextInvite := s.nextInvite + 1)
  }

  predicate IsFor(invite: Invite, w: nat, email: string) { invite.workspace == w && invite.email == Some(email) }

  ghost function Pending(s: Team, w: nat, email: string): Option<nat> {
    if exists id :: id in s.invites && IsFor(s.invites[id], w, email)
    then var id :| id in s.invites && IsFor(s.invites[id], w, email); Some(id)
    else None
  }

  // Refreshes the pending invite of this address, or creates one.
  ghost function Invited(s: Team, w: nat, email: string, req: Request): Team {
    var invite := Invite(w, Some(email), NormalizeRole(req.role), ComputeExpiry(s.clock, req.lifetime), None, 0);
    match Pending(s, w, email)
    case Some(id) => s.(invites := s.invites[id := invite])
    case None => s.(invites := s.invites[s.nextInvite := invite], nextInvite := s.nextInvite + 1)
  }

  function MemberEmails(s: Team, w: nat): set<string> {
    set k | k in s.members && k.1 == w && k.0 in s.users :: Lower(s.users[k.0])
  }

  function Spellings(emails: seq<string>): set<string> { set e | e in emails :: Lower(e) }

  predicate Skipped(s: Team, w: nat, emails: seq<string>, i: nat)
    requires i < |emails|
  {
    var key := Lower(emails[i]);
    key in Spellings(emails[..i]) || key in MemberEmails(s, w)
  }

  // After the first n addresses of the request.
  ghost function InvitedUpTo(s: Team, w: nat, req: Request, n: nat): Team
    requires n <= |req.emails|
  {
    if n == 0 then s
    else if Skipped(s, w, req.emails, n - 1) then InvitedUpTo(s, w, req, n - 1)
    else Invited(InvitedUpTo(s, w, req, n - 1), w, req.emails[n - 1], req)
  }

  ghost function InvitesGenerated(s: Team, w: nat, req: Request): Team {
    if w !in s.workspaces then s
    else if req.emails == [] then LinkCreated(s, w, req)
    else InvitedUpTo(s, w, req, |req.emails|)
  }

  // The user becomes a member, and the membership is written.
  predicate Admits(s: Team, user: nat, id: nat) {
    && id in s.invites && !s.invites[id].IsExpired(s.clock) && !s.invites[id].UsesExhausted()
    && (user, s.invites[id].workspace) !in s.members && user in s.users
  }

  function InviteAccepted(s: Team, user: nat, id: nat): Team {
    if id !in s.invites then s
    else
      var invite := s.invites[id];
      var consumed := if invite.IsLink() then s else s.(invites := s.invites - {id});
      if invite.IsExpired(s.clock) then consumed
      else if invite.UsesExhausted() then s
      else if (user, invite.workspace) in s.members then consumed
      else if user !in s.users then s
      else
        var joined := s.members[(user, invite.workspace) := invite.role];
        if invite.IsLink()
        then s.(members := joined, invites := s.invites[id := invite.(useCount := invite.useCount + 1)])
        else s.(members := joined, invites := s.invites - {id})
  }

  predicate IsOrdinary(s: Team, user: nat, w: nat) {
    (user, w) in s.members && s.members[(user, w)] != Owner
  }

  function MemberRemoved(s: Team, user: nat, w: nat): Team {
    if IsOrdinary(s, user, w) then s.(members := s.members - {(user, w)}) else s
  }

  function RoleUpdated(s: Team, user: nat, w: nat, role: string): Team {
    if role in ["ADMIN", "MEMBER", "VIEWER"] && IsOrdinary(s, user, w)
    then s.(members := s.members[(user, w) := NormalizeRole(role)])
    else s
  }

  predicate Owns(s: Team, user: nat, w: nat) { (user, w) in s.members && s.members[(user, w)] == Owner }

  function Renamed(s: Team, user: nat, w: nat, slug: string): Team {
    if (user, w) in s.members && s.members[(user, w)] in {Owner, Admin} && w in s.workspaces &&
       (s.workspaces[w] == slug || SlugFree(s, slug))
    then s.(workspaces := s.workspaces[w := slug])
    else s
  }

  // ON DELETE CASCADE
  function Without(s: Team, gone: set<nat>): Team {
    s.(workspaces := s.workspaces - gone,
       members := map k | k in s.members && k.1 !in gone :: s.members[k],
       invites := map id | id in s.invites && s.invites[id].workspace !in gone :: s.invites[id])
  }

  function WorkspaceDeleted(s: Team, user: nat, w: nat): Team {
    if Owns(s, user, w) then Without(s, {w}) else s
  }

  function OwnedBy(s: Team, user: nat): set<nat> {
    set k | k in s.members && k.0 == user && s.members[k] == Owner :: k.1
  }

  // `confirmed`: the account has no password, or the right one was given.
  function AccountDeleted(s: Team, user: nat, confirmed: bool): Team {
    if user !in s.users || !confirmed then s
    else
      var rest := Without(s, OwnedBy(s, user));
      rest.(members := map k | k in rest.members && k.0 != user :: rest.members[k], users := rest.users - {user})
  }

  datatype Step =
    | Wait(ms: nat)
    | Register(email: string)
    | CreateWorkspace(user: nat, slug: string)
    | Rename(user: nat, workspace: nat, slug: string)
    | GenerateInvites(workspace: nat, request: Request)
    | AcceptInvite(user: nat, invite: nat)
    | RevokeInvite(invite: nat)
    | RemoveMember(user: nat, workspace: nat)
    | UpdateRole(user: nat, workspace: nat, role: string)
    | DeleteWorkspace(user: nat, workspace: nat)
    | DeleteAccount(user: nat, confirmed: bool)

  ghost function Next(s: Team, step: Step): Team {
    match step
    case Wait(ms) => s.(clock := s.clock + ms)
    case Register(email) => s.(users := s.users[s.nextUser := email], nextUser := s.nextUser + 1)
    case CreateWorkspace(user, slug) => WorkspaceCreated(s, user, slug)
    case Rename(user, w, slug) => Renamed(s, user, w, slug)
    case GenerateInvites(w, req) => InvitesGenerated(s, w, req)
    case AcceptInvite(user, id) => InviteAccepted(s, user, id)
    case RevokeInvite(id) => s.(invites := s.invites - {id})
    case RemoveMember(user, w) => MemberRemoved(s, user, w)
    case UpdateRole(user, w, role) => RoleUpdated(s, user, w, role)
    case DeleteWorkspace(user, w) => WorkspaceDeleted(s, user, w)
    case DeleteAccount(user, confirmed) => AccountDeleted(s, user, confirmed)
  }

  function Empty(clock: int): Team { Team(clock, map[], map[], map[], map[], 0, 0, 0) }

  ghost function Exec(clock: int, steps: seq<Step>): Team {
    if steps == [] then Empty(clock) else Next(Exec(clock, steps[..|steps| - 1]), steps[|steps| - 1])
  }

  // ------------------------------------------------------------- Invariant

  predicate InviteSound(invite: Invite, workspaces: map<nat, string>) {
    && invite.workspace in workspaces && invite.role != Owner
    && (invite.maxUses.Some? ==> invite.useCount <= invite.maxUses.value)
    && (!invite.IsLink() ==> invite.maxUses.None? && invite.useCount == 0)
  }

  predicate SameAddress(a: Invite, b: Invite) {
    a.email.Some? && a.email == b.email && a.workspace == b.workspace
  }

  // One pending invite per workspace and address.
  predicate OnePerAddress(invites: map<nat, Invite>) {
    forall i, j :: i in invites && j in invites && SameAddress(invites[i], invites[j]) ==> i == j
  }

  predicate InvitesSound(invites: map<nat, Invite>, workspaces: map<nat, string>, next: nat) {
    (forall id :: id in invites ==> id < next && InviteSound(invites[id], workspaces)) && OnePerAddress(invites)
  }

  // No key is reused, and no member is of a user or workspace that is gone.
  predicate Rooted(s: Team) {
    && (forall u :: u in s.users ==> u < s.nextUser)
    && (forall w :: w in s.workspaces ==> w < s.nextWorkspace)
    && (forall k :: k in s.members ==> k.0 in s.users && k.1 in s.workspaces)
  }

  predicate Sound(s: Team) { Rooted(s) && InvitesSound(s.invites, s.workspaces, s.nextInvite) }

  lemma InvitedKeepsAddresses(s: Team, w: nat, email: string, req: Request)
    requires OnePerAddress(s.invites)
    ensures OnePerAddress(Invited(s, w, email, req).invites)
  {
    var t := Invited(s, w, email, req);
    var id := Pending(s, w, email).GetOr(s.nextInvite);
    forall i | i in t.invites && i != id
      ensures i in s.invites && t.invites[i] == s.invites[i] && !SameAddress(t.invites[id], t.invites[i])
    {
      assert IsFor(s.invites[i], w, email) ==> id in s.invites && SameAddress(s.invites[id], s.invites[i]);
    }
  }

  lemma InvitedKeepsSound(s: Team, w: nat, email: string, req: Request)
    requires Sound(s) && w in s.workspaces
    ensures Sound(Invited(s, w, email, req))
  {
    InvitedKeepsAddresses(s, w, email, req);
  }

  // Inviting by e-mail changes nothing but the invites.
  lemma {:induction false} UpToKeepsSound(s: Team, w: nat, req: Request, n: nat)
    requires Sound(s) && w in s.workspaces && n <= |req.emails|
    ensures var t := InvitedUpTo(s, w, req, n);
            Sound(t) && t == s.(invites := t.invites, nextInvite := t.nextInvite)
  {
    if n == 0 {
    } else {
      UpToKeepsSound(s, w, req, n - 1);
      InvitedKeepsSound(InvitedUpTo(s, w, req, n - 1), w, req.emails[n - 1], req);
    }
  }

  lemma AddressesKept(before: map<nat, Invite>, after: map<nat, Invite>)
    requires OnePerAddress(before)
    requires forall id :: id in after && after[id].email.Some? ==> id in before && SameAddress(after[id], before[id])
    ensures OnePerAddress(after)
  {
    forall i, j | i in after && j in after && SameAddress(after[i], after[j])
      ensures i == j
    {
      assert SameAddress(before[i], before[j]);
    }
  }

  lemma AddingKeepsSound(s: Team, invite: Invite)
    requires Sound(s) && InviteSound(invite, s.workspaces) && invite.IsLink()
    ensures Sound(s.(invites := s.invites[s.nextInvite := invite], nextInvite := s.nextInvite + 1))
  {
    AddressesKept(s.invites, s.invites[s.nextInvite := invite]);
  }

  lemma LinkKeepsSound(s: Team, w: nat, req: Request)
    requires Sound(s) && w in s.workspaces
    ensures Sound(LinkCreated(s, w, req))
  {
    AddingKeepsSound(s, Invite(w, None, NormalizeRole(req.role), ComputeExpiry(s.clock, req.lifetime),
                               MaxUses(req.maxUses), 0));
  }

  lemma GeneratingKeepsSound(s: Team, w: nat, req: Request)
    requires Sound(s)
    ensures var t := InvitesGenerated(s, w, req);
            Sound(t) && t == s.(invites := t.invites, nextInvite := t.nextInvite)
  {
    if w in s.workspaces {
      if req.emails == [] {
        LinkKeepsSound(s, w, req);
      } else {
        UpToKeepsSound(s, w, req, |req.emails|);
      }
    }
  }

  lemma DroppingKeepsSound(s: Team, id: nat)
    requires Sound(s)
    ensures Sound(s.(invites := s.invites - {id}))
  {
    AddressesKept(s.invites, s.invites - {id});
  }

  lemma UsingKeepsSound(s: Team, id: nat, used: Invite)
    requires Sound(s) && id in s.invites && InviteSound(used, s.workspaces)
    requires used.email == s.invites[id].email && used.workspace == s.invites[id].workspace
    ensures Sound(s.(invites := s.invites[id := used]))
  {
    AddressesKept(s.invites, s.invites[id := used]);
  }

  lemma AdmittingKeepsSound(s: Team, user: nat, id: nat)
    requires Sound(s) && Admits(s, user, id)
    ensures Sound(InviteAccepted(s, user, id))
  {
    var invite := s.invites[id];
    var joined := s.(members := s.members[(user, invite.workspace) := invite.role]);
    assert Sound(joined);
    if invite.IsLink() {
      UsingKeepsSound(joined, id, invite.(useCount := invite.useCount + 1));
    } else {
      DroppingKeepsSound(joined, id);
    }
  }

  lemma AcceptingKeepsSound(s: Team, user: nat, id: nat)
    requires Sound(s)
    ensures Sound(InviteAccepted(s, user, id))
  {
    if Admits(s, user, id) {
      AdmittingKeepsSound(s, user, id);
    } else {
      DroppingKeepsSound(s, id);
    }
  }

  lemma RemovingKeepsSound(s: Team, gone: set<nat>)
    requires Sound(s)
    ensures Sound(Without(s, gone))
  {
    AddressesKept(s.invites, Without(s, gone).invites);
  }

  lemma DeletingAccountKeepsSound(s: Team, user: nat, confirmed: bool)
    requires Sound(s)
    ensures Sound(AccountDeleted(s, user, confirmed))
  {
    RemovingKeepsSound(s, OwnedBy(s, user));
  }

  // Requests that leave the invites alone.
  predicate IsRosterStep(step: Step) {
    step.Wait? || step.Register? || step.CreateWorkspace? || step.Rename? || step.RemoveMember? || step.UpdateRole?
  }

  lemma CreatingKeepsSound(s: Team, user: nat, slug: string)
    requires Sound(s)
    ensures Sound(WorkspaceCreated(s, user, slug))
  {
  }

  lemma RosterStepsKeepSound(s: Team, step: Step)
    requires Sound(s) && IsRosterStep(step)
    ensures Sound(Next(s, step)) && Next(s, step).invites == s.invites
  {
    if step.CreateWorkspace? {
      CreatingKeepsSound(s, step.user, step.slug);
    }
  }

  lemma StepKeepsSound(s: Team, step: Step)
    requires Sound(s)
    ensures Sound(Next(s, step))
  {
    match step
    case GenerateInvites(w, req) => GeneratingKeepsSound(s, w, req);
    case AcceptInvite(user, id) => AcceptingKeepsSound(s, user, id);
    case RevokeInvite(id) => DroppingKeepsSound(s, id);
    case DeleteWorkspace(_, w) => RemovingKeepsSound(s, {w});
    case DeleteAccount(user, confirmed) => DeletingAccountKeepsSound(s, user, confirmed);
    case _ => RosterStepsKeepSound(s, step);
  }

  lemma {:induction false} RunIsSound(clock: int, steps: seq<Step>)
    ensures Sound(Exec(clock, steps))
  {
    if steps == [] {
    } else {
      RunIsSound(clock, steps[..|steps| - 1]);
      StepKeepsSound(Exec(clock, steps[..|steps| - 1]), steps[|steps| - 1]);
    }
  }

  lemma SpellingsOfPrefix(emails: seq<string>, i: nat)
    requires i < |emails|
    ensures Spellings(emails[..i + 1]) == Spellings(emails[..i]) + {Lower(emails[i])}
  {
    assert emails[..i + 1] == emails[..i] + [emails[i]];
  }

  // ----------------------------------------------------------------- Owner

  predicate SoleOwner(s: Team, user: nat, w: nat) {
    Owns(s, user, w) && forall k :: k in s.members && k.1 == w && s.members[k] == Owner ==> k.0 == user
  }

  // The user whose request created workspace w.
  ghost function Founder(clock: int, steps: seq<Step>, w: nat): Option<nat> {
    if steps == [] then None
    else
      var front, last := steps[..|steps| - 1], steps[|steps| - 1];
      if last.CreateWorkspace? && w == Exec(clock, front).nextWorkspace && w < Exec(clock, steps).nextWorkspace
      then Some(last.user)
      else Founder(clock, front, w)
  }

  predicate Ends(step: Step, owner: nat, w: nat) {
    step == DeleteWorkspace(owner, w) || step == DeleteAccount(owner, true)
  }

  // Requests about invites end no workspace, and make nobody an owner.
  predicate IsInviteStep(step: Step) { step.GenerateInvites? || step.AcceptInvite? || step.RevokeInvite? }

  lemma InviteStepsKeepOwners(s: Team, step: Step)
    requires Sound(s) && IsInviteStep(step)
    ensures Next(s, step).workspaces == s.workspaces
    ensures forall user, w :: Owns(Next(s, step), user, w) <==> Owns(s, user, w)
  {
    if step.GenerateInvites? {
      GeneratingKeepsSound(s, step.workspace, step.request);
    }
  }

  lemma CreatingKeepsOwners(s: Team, creator: nat, slug: string, user: nat, w: nat)
    requires Rooted(s) && w in s.workspaces
    ensures var t := WorkspaceCreated(s, creator, slug); w in t.workspaces && (Owns(t, user, w) <==> Owns(s, user, w))
  {
  }

  // Nor do those about the roster, of a workspace that was there.
  lemma RosterStepsKeepOwners(s: Team, step: Step, user: nat, w: nat)
    requires Rooted(s) && w in s.workspaces && IsRosterStep(step)
    ensures w in Next(s, step).workspaces
    ensures Owns(Next(s, step), user, w) <==> Owns(s, user, w)
  {
    if step.CreateWorkspace? {
      CreatingKeepsOwners(s, step.user, step.slug, user, w);
    }
  }

  lemma RosterStepsKeepSoleOwner(s: Team, step: Step, owner: nat, w: nat)
    requires Rooted(s) && w in s.workspaces && SoleOwner(s, owner, w) && IsRosterStep(step)
    ensures w in Next(s, step).workspaces && SoleOwner(Next(s, step), owner, w)
  {
    forall user ensures Owns(Next(s, step), user, w) <==> Owns(s, user, w) {
      RosterStepsKeepOwners(s, step, user, w);
    }
    RosterStepsKeepOwners(s, step, owner, w);
    SoleOwnerStays(s, Next(s, step), owner, w);
  }

  lemma DeletedOwnWorkspace(s: Team, step: Step, owner: nat, w: nat)
    requires w in s.workspaces && SoleOwner(s, owner, w) && step.DeleteWorkspace?
    ensures w !in Next(s, step).workspaces <==> Ends(step, owner, w)
    ensures w in Next(s, step).workspaces ==> SoleOwner(Next(s, step), owner, w)
  {
  }

  lemma DeletedOwnAccount(s: Team, step: Step, owner: nat, w: nat)
    requires Rooted(s) && w in s.workspaces && SoleOwner(s, owner, w) && step.DeleteAccount?
    ensures w !in Next(s, step).workspaces <==> Ends(step, owner, w)
    ensures w in Next(s, step).workspaces ==> SoleOwner(Next(s, step), owner, w)
  {
    assert w in OwnedBy(s, step.user) <==> step.user == owner by {
      assert (owner, w) in s.members;
    }
  }

  lemma SoleOwnerStays(s: Team, t: Team, owner: nat, w: nat)
    requires SoleOwner(s, owner, w) && forall user :: Owns(t, user, w) <==> Owns(s, user, w)
    ensures SoleOwner(t, owner, w)
  {
    forall k | k in t.members && k.1 == w && t.members[k] == Owner ensures k.0 == owner {
      assert Owns(t, k.0, w) && Owns(s, k.0, w) && (k.0, w) in s.members;
    }
  }

  /** A workspace ends by a request of its owner and by nothing else, and until
      then its owner stays its only owner. */
  lemma OnlyItsOwnerEndsIt(s: Team, step: Step, owner: nat, w: nat)
    requires Sound(s) && w in s.workspaces && SoleOwner(s, owner, w)
    ensures w !in Next(s, step).workspaces <==> Ends(step, owner, w)
    ensures w in Next(s, step).workspaces ==> SoleOwner(Next(s, step), owner, w)
  {
    if IsInviteStep(step) {
      InviteStepsKeepOwners(s, step);
      SoleOwnerStays(s, Next(s, step), owner, w);
    } else if IsRosterStep(step) {
      RosterStepsKeepSoleOwner(s, step, owner, w);
    } else if step.DeleteWorkspace? {
      DeletedOwnWorkspace(s, step, owner, w);
    } else {
      DeletedOwnAccount(s, step, owner, w);
    }
  }

  lemma NewWorkspace(s: Team, step: Step, w: nat)
    requires Sound(s) && w !in s.workspaces && w in Next(s, step).workspaces
    ensures step.CreateWorkspace? && w == s.nextWorkspace < Next(s, step).nextWorkspace
    ensures SoleOwner(Next(s, step), step.user, w)
  {
    if step.GenerateInvites? {
      GeneratingKeepsSound(s, step.workspace, step.request);
    }
  }

  /** Over every run, every workspace has exactly one owner: whoever created it. */
  lemma {:induction false} TheFounderOwnsIt(clock: int, steps: seq<Step>, w: nat)
    requires w in Exec(clock, steps).workspaces
    ensures var founder := Founder(clock, steps, w);
            founder.Some? && SoleOwner(Exec(clock, steps), founder.value, w)
  {
    var front, last := steps[..|steps| - 1], steps[|steps| - 1];
    var s := Exec(clock, front);
    RunIsSound(clock, front);
    if w in s.workspaces {
      TheFounderOwnsIt(clock, front, w);
      OnlyItsOwnerEndsIt(s, last, Founder(clock, front, w).value, w);
    } else {
      NewWorkspace(s, last, w);
    }
  }

  // --------------------------------------------------------------- Invites

  // The invite as it was when its row was created.
  ghost function Issued(clock: int, steps: seq<Step>, id: nat): Option<Invite> {
    if steps == [] then None
    else
      var front := steps[..|steps| - 1];
      if id >= Exec(clock, front).nextInvite && id in Exec(clock, steps).invites
      then Some(Exec(clock, steps).invites[id])
      else Issued(clock, front, id)
  }

  // How many people the invite has brought in.
  ghost function Admissions(clock: int, steps: seq<Step>, id: nat): nat {
    if steps == [] then 0
    else
      var front, last := steps[..|steps| - 1], steps[|steps| - 1];
      Admissions(clock, front, id) +
      (if last.AcceptInvite? && last.invite == id && Admits(Exec(clock, front), last.user, id) then 1 else 0)
  }

  // What became of an invite that was issued as `first` and admitted n people.
  predicate Accounted(s: Team, id: nat, first: Invite, n: nat) {
    && id < s.nextInvite && first.role != Owner
    && (first.IsLink() ==> first.maxUses.Some? ==> n <= first.maxUses.value)
    && (!first.IsLink() ==> n <= 1)
    && (id in s.invites ==>
          && s.invites[id].workspace == first.workspace && s.invites[id].email == first.email
          && (first.IsLink() ==> s.invites[id].maxUses == first.maxUses && s.invites[id].useCount == n)
          && (!first.IsLink() ==> n == 0))
  }

  // Inviting by e-mail leaves links alone, and keeps whom an invite is for.
  predicate Kept(a: Invite, b: Invite) {
    a.workspace == b.workspace && a.email == b.email && (a.role != Owner ==> b.role != Owner) &&
    (a.IsLink() ==> a == b)
  }

  predicate OnlyEmailsChange(s: Team, t: Team) {
    && s.nextInvite <= t.nextInvite
    && (forall id :: id in s.invites ==> id in t.invites && Kept(s.invites[id], t.invites[id]))
    && (forall id :: s.nextInvite <= id < t.nextInvite ==>
          id in t.invites && !t.invites[id].IsLink() && t.invites[id].role != Owner)
    && (forall id :: id in t.invites ==> id in s.invites || s.nextInvite <= id < t.nextInvite)
  }

  lemma WritingChangesEmailsOnly(s: Team, id: nat, invite: Invite)
    requires id in s.invites && invite.email.Some? && Kept(s.invites[id], invite)
    ensures OnlyEmailsChange(s, s.(invites := s.invites[id := invite]))
  {
  }

  lemma InvitedChangesEmailsOnly(s: Team, w: nat, email: string, req: Request)
    requires Sound(s)
    ensures OnlyEmailsChange(s, Invited(s, w, email, req))
  {
    var found := Pending(s, w, email);
    if found.Some? {
      WritingChangesEmailsOnly(s, found.value, Invited(s, w, email, req).invites[found.value]);
    }
  }

  lemma EmailsChangeInTurn(s: Team, t: Team, u: Team)
    requires OnlyEmailsChange(s, t) && OnlyEmailsChange(t, u)
    ensures OnlyEmailsChange(s, u)
  {
    forall id | s.nextInvite <= id < u.nextInvite
      ensures id in u.invites && !u.invites[id].IsLink() && u.invites[id].role != Owner
    {
      assert id < t.nextInvite ==> id in t.invites;
    }
  }

  lemma {:induction false} UpToChangesEmailsOnly(s: Team, w: nat, req: Request, n: nat)
    requires Sound(s) && w in s.workspaces && n <= |req.emails|
    ensures OnlyEmailsChange(s, InvitedUpTo(s, w, req, n))
  {
    if n == 0 {
    } else {
      UpToChangesEmailsOnly(s, w, req, n - 1);
      UpToKeepsSound(s, w, req, n - 1);
      var t := InvitedUpTo(s, w, req, n - 1);
      InvitedChangesEmailsOnly(t, w, req.emails[n - 1], req);
      EmailsChangeInTurn(s, t, Invited(t, w, req.emails[n - 1], req));
    }
  }

  lemma AcceptingKeepsAccount(s: Team, user: nat, used: nat, id: nat, first: Invite, n: nat)
    requires Sound(s) && Accounted(s, id, first, n)
    ensures var more := if used == id && Admits(s, user, id) then 1 else 0;
            Accounted(InviteAccepted(s, user, used), id, first, n + more)
  {
  }

  lemma GeneratingKeepsAccount(s: Team, w: nat, req: Request, id: nat, first: Invite, n: nat)
    requires Sound(s) && Accounted(s, id, first, n)
    ensures Accounted(InvitesGenerated(s, w, req), id, first, n)
  {
    if w in s.workspaces {
      UpToChangesEmailsOnly(s, w, req, |req.emails|);
    }
  }

  // Whatever else changes, an invite stays as it is, or goes.
  lemma OthersKeepAccount(s: Team, step: Step, id: nat, first: Invite, n: nat)
    requires Accounted(s, id, first, n) && !step.AcceptInvite? && !step.GenerateInvites?
    ensures Accounted(Next(s, step), id, first, n)
  {
  }

  lemma StepKeepsAccount(s: Team, step: Step, id: nat, first: Invite, n: nat)
    requires Sound(s) && Accounted(s, id, first, n)
    ensures var more := if step.AcceptInvite? && step.invite == id && Admits(s, step.user, id) then 1 else 0;
            Accounted(Next(s, step), id, first, n + more)
  {
    match step
    case AcceptInvite(user, used) => AcceptingKeepsAccount(s, user, used, id, first, n);
    case GenerateInvites(w, req) => GeneratingKeepsAccount(s, w, req, id, first, n);
    case _ => OthersKeepAccount(s, step, id, first, n);
  }

  lemma NewInvite(s: Team, step: Step, id: nat)
    requires Sound(s) && id >= s.nextInvite
    ensures id in Next(s, step).invites ==> Accounted(Next(s, step), id, Next(s, step).invites[id], 0)
    ensures id !in Next(s, step).invites ==> id >= Next(s, step).nextInvite
  {
    if step.GenerateInvites? {
      NewGenerated(s, step.workspace, step.request, id);
    }
  }

  lemma NewGenerated(s: Team, w: nat, req: Request, id: nat)
    requires Sound(s) && id >= s.nextInvite
    ensures var t := InvitesGenerated(s, w, req);
      && (id in t.invites ==> Accounted(t, id, t.invites[id], 0))
      && (id !in t.invites ==> id >= t.nextInvite)
  {
    if w in s.workspaces {
      UpToChangesEmailsOnly(s, w, req, |req.emails|);
    }
  }

  lemma {:induction false} EveryInviteIsAccounted(clock: int, steps: seq<Step>, id: nat)
    ensures var s, n := Exec(clock, steps), Admissions(clock, steps, id);
      match Issued(clock, steps, id)
      case Some(first) => Accounted(s, id, first, n)
      case None => id >= s.nextInvite && n == 0
  {
    if steps == [] {
    } else {
      var front, last := steps[..|steps| - 1], steps[|steps| - 1];
      RunIsSound(clock, front);
      EveryInviteIsAccounted(clock, front, id);
      var s := Exec(clock, front);
      match Issued(clock, front, id)
      case Some(first) => StepKeepsAccount(s, last, id, first, Admissions(clock, front, id));
      case None => NewInvite(s, last, id);
    }
  }

  /** Over every run, an e-mail invite brings in at most one person, a link with a
      cap at most as many as its cap, and its use count is how many it brought in.
      No invite is issued for the role of an owner. */
  lemma InvitesAdmitNoMoreThanTheyAllow(clock: int, steps: seq<Step>, id: nat)
    ensures Issued(clock, steps, id).None? ==> Admissions(clock, steps, id) == 0
    ensures forall first :: Issued(clock, steps, id) == Some(first) ==>
      && first.role != Owner
      && (first.IsLink() && first.maxUses.Some? ==> Admissions(clock, steps, id) <= first.maxUses.value)
      && (!first.IsLink() ==> Admissions(clock, steps, id) <= 1)
    ensures id in Exec(clock, steps).invites ==> Admissions(clock, steps, id) == Exec(clock, steps).invites[id].useCount
  {
    RunIsSound(clock, steps);
    EveryInviteIsAccounted(clock, steps, id);
  }

  // -------------------------------------------------- The code as written

  class Database {
    var clock: int
    var users: map<nat, string>
    var workspaces: map<nat, string>
    var members: map<(nat, nat), Role>
    var invites: map<nat, Invite>
    var nextUser: nat
    var nextWorkspace: nat
    var nextInvite: nat

    ghost function State(): Team
      reads this
    {
      Team(clock, users, workspaces, members, invites, nextUser, nextWorkspace, nextInvite)
    }

    constructor (clock: int)
      ensures State() == Empty(clock)
    {
      this.clock := clock;
      users, workspaces, members, invites := map[], map[], map[], map[];
      nextUser, nextWorkspace, nextInvite := 0, 0, 0;
    }

    method IsSlugFree(slug: string) returns (free: bool)
      ensures free == SlugFree(State(), slug)
    {
      var rest := workspaces.Keys;
      while rest != {}
        invariant rest <= workspaces.Keys
        invariant forall w :: w in workspaces && w !in rest ==> workspaces[w] != slug
        decreases rest
      {
        var w :| w in rest;
        if workspaces[w] == slug { return false; }
        rest := rest - {w};
      }
      return true;
    }

    method CreateWorkspace(userId: nat, slug: string) returns (created: bool)
      modifies this
      ensures created == (userId in old(users) && SlugFree(old(State()), slug))
      ensures State() == WorkspaceCreated(old(State()), userId, slug)
    {
      var free := IsSlugFree(slug);
      if !free || userId !in users { return false; }
      workspaces := workspaces[nextWorkspace := slug];
      members := members[(userId, nextWorkspace) := Owner];
      nextWorkspace := nextWorkspace + 1;
      return true;
    }

    method FindInvite(workspaceId: nat, email: string) returns (found: Option<nat>)
      requires OnePerAddress(invites)
      ensures found == Pending(State(), workspaceId, email)
    {
      var rest := invites.Keys;
      while rest != {}
        invariant rest <= invites.Keys
        invariant forall id :: id in invites && id !in rest ==> !IsFor(invites[id], workspaceId, email)
        decreases rest
      {
        var id :| id in rest;
        if IsFor(invites[id], workspaceId, email) {
          forall other | other in invites && IsFor(invites[other], workspaceId, email) ensures other == id {
            assert SameAddress(invites[id], invites[other]);
          }
          return Some(id);
        }
        rest := rest - {id};
      }
      return None;
    }

    method CreateLink(workspaceId: nat, req: Request)
      modifies this
      ensures State() == LinkCreated(old(State()), workspaceId, req)
    {
      var maxUses := MaxUses(req.maxUses);
      if maxUses.Some? && maxUses.value > INT_MAX { return; }
      invites := invites[nextInvite := Invite(workspaceId, None, NormalizeRole(req.role),
                                              ComputeExpiry(clock, req.lifetime), maxUses, 0)];
      nextInvite := nextInvite + 1;
    }

    method InviteAddress(workspaceId: nat, email: string, req: Request)
      requires OnePerAddress(invites)
      modifies this
      ensures State() == Invited(old(State()), workspaceId, email, req)
    {
      var role, expiresAt := NormalizeRole(req.role), ComputeExpiry(clock, req.lifetime);
      var existing := FindInvite(workspaceId, email);
      if existing.Some? {
        invites := invites[existing.value := invites[existing.value].(
          role := role, expiresAt := expiresAt, maxUses := None, useCount := 0)];
      } else {
        invites := invites[nextInvite := Invite(workspaceId, Some(email), role, expiresAt, None, 0)];
        nextInvite := nextInvite + 1;
      }
    }

    // The loop over the addresses; repeated ones and members are skipped.
    method InviteAll(workspaceId: nat, req: Request)
      requires Sound(State()) && workspaceId in workspaces
      modifies this
      ensures State() == InvitedUpTo(old(State()), workspaceId, req, |req.emails|)
    {
      ghost var before := State();
      var memberEmails := set k | k in members && k.1 == workspaceId && k.0 in users :: Lower(users[k.0]);
      assert memberEmails == MemberEmails(before, workspaceId);
      var seen: set<string> := {};
      for i := 0 to |req.emails|
        invariant seen == Spellings(req.emails[..i])
        invariant State() == InvitedUpTo(before, workspaceId, req, i)
      {
        var key := Lower(req.emails[i]);
        SpellingsOfPrefix(req.emails, i);
        UpToKeepsSound(before, workspaceId, req, i);
        if key !in seen {
          seen := seen + {key};
          if key !in memberEmails { InviteAddress(workspaceId, req.emails[i], req); }
        }
      }
    }

    method GenerateInvites(workspaceId: nat, req: Request)
      requires Sound(State())
      modifies this
      ensures State() == InvitesGenerated(old(State()), workspaceId, req)
    {
      if workspaceId !in workspaces { return; }
      if |req.emails| == 0 {
        CreateLink(workspaceId, req);
      } else {
        InviteAll(workspaceId, req);
      }
    }

    method AcceptInvite(id: nat, userId: nat) returns (admitted: bool)
      modifies this
      ensures admitted == Admits(old(State()), userId, id)
      ensures State() == InviteAccepted(old(State()), userId, id)
    {
      if id !in invites { return false; }
      var invite := invites[id];
      var isLink := invite.email.None?;
      if invite.IsExpired(clock) {
        if !isLink { invites := invites - {id}; }
        return false;
      }
      if invite.UsesExhausted() { return false; }
      if (userId, invite.workspace) in members {
        if !isLink { invites := invites - {id}; }
        return false;
      }
      // A user that is gone fails the foreign key, and the transaction with it.
      if userId !in users { return false; }
      members := members[(userId, invite.workspace) := invite.role];
      if isLink {
        invites := invites[id := invite.(useCount := invite.useCount + 1)];
      } else {
        invites := invites - {id};
      }
      return true;
    }

    method RemoveMember(workspaceId: nat, userId: nat) returns (removed: bool)
      modifies this
      ensures removed == IsOrdinary(old(State()), userId, workspaceId)
      ensures State() == MemberRemoved(old(State()), userId, workspaceId)
    {
      if (userId, workspaceId) !in members { return false; }
      if members[(userId, workspaceId)] == Owner { return false; }
      members := members - {(userId, workspaceId)};
      return true;
    }

    method UpdateMemberRole(workspaceId: nat, userId: nat, role: string)
      modifies this
      ensures State() == RoleUpdated(old(State()), userId, workspaceId, role)
    {
      if role !in ["ADMIN", "MEMBER", "VIEWER"] { return; }
      if (userId, workspaceId) !in members { return; }
      if members[(userId, workspaceId)] == Owner { return; }
      var updated := if role == "ADMIN" then Admin else if role == "MEMBER" then Member else Viewer;
      members := members[(userId, workspaceId) := updated];
    }

    method DeleteWorkspaces(gone: set<nat>)
      modifies this
      ensures State() == Without(old(State()), gone)
    {
      workspaces := workspaces - gone;
      members := map k | k in members && k.1 !in gone :: members[k];
      invites := map id | id in invites && invites[id].workspace !in gone :: invites[id];
    }

    method DeleteWorkspace(userId: nat, workspaceId: nat) returns (deleted: bool)
      modifies this
      ensures deleted == Owns(old(State()), userId, workspaceId)
      ensures State() == WorkspaceDeleted(old(State()), userId, workspaceId)
    {
      if (userId, workspaceId) !in members || members[(userId, workspaceId)] != Owner { return false; }
      DeleteWorkspaces({workspaceId});
      return true;
    }

    method DeleteAccount(userId: nat, confirmed: bool)
      modifies this
      ensures State() == AccountDeleted(old(State()), userId, confirmed)
    {
      if userId !in users || !confirmed { return; }
      var owned := set k | k in members && k.0 == userId && members[k] == Owner :: k.1;
      DeleteWorkspaces(owned);
      members := map k | k in members && k.0 != userId :: members[k];
      users := users - {userId};
    }
  }
}
