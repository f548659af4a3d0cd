/**
 What each workspace request does, read off the rows it finds: who gets in by an
 invite and as what, whom an invitation reaches, and what a deletion leaves.
 */
module WorkspaceRequests {
  import opened Common
  import opened Workspaces

  // ---------------------------------------------------------------- Invites

  // The invite can still bring this user in: not past its time, uses left, and
  // the user exists and is no member yet.
  predicate LetsIn(s: Team, user: nat, id: nat) {
    && id in s.invites
    && (s.invites[id].expiresAt.Some? ==> s.clock <= s.invites[id].expiresAt.value)
    && (s.invites[id].maxUses.Some? ==> s.invites[id].useCount < s.invites[id].maxUses.value)
    && (user, s.invites[id].workspace) !in s.members && user in s.users
  }

  /** Accepting brings in exactly whom the invite lets in, with the role it names;
      a link counts one use, an e-mail invite is gone. */
  lemma AcceptingLetsIn(s: Team, user: nat, id: nat)
    requires LetsIn(s, user, id)
    ensures var t, invite := InviteAccepted(s, user, id), s.invites[id];
      && t.members == s.members[(user, invite.workspace) := invite.role]
      && (invite.email.None? ==>
            id in t.invites && t.invites[id].useCount == invite.useCount + 1 &&
            t.invites == s.invites[id := t.invites[id]] && t.invites[id].maxUses == invite.maxUses &&
            t.invites[id].expiresAt == invite.expiresAt && t.invites[id].role == invite.role)
      && (invite.email.Some? ==> t.invites == s.invites - {id})
    ensures var t := InviteAccepted(s, user, id);
      t.users == s.users && t.workspaces == s.workspaces && t.clock == s.clock && t.nextInvite == s.nextInvite
  {
  }

  /** Otherwise nobody comes in. An e-mail invite goes if it is past its time, or
      its user a member already; anything else stays as it is. */
  lemma AcceptingKeepsOut(s: Team, user: nat, id: nat)
    requires !LetsIn(s, user, id)
    ensures var t := InviteAccepted(s, user, id);
      && t == s.(invites := t.invites)
      && t.invites ==
         if id in s.invites && s.invites[id].email.Some? &&
            ((s.invites[id].expiresAt.Some? && s.clock > s.invites[id].expiresAt.value) ||
             ((s.invites[id].maxUses.Some? ==> s.invites[id].useCount < s.invites[id].maxUses.value) &&
              (user, s.invites[id].workspace) in s.members))
         then s.invites - {id} else s.invites
  {
  }

  // As the request says; what is no assignable role becomes VIEWER.
  predicate HasRole(invite: Invite, asked: string) {
    && (asked == "ADMIN" ==> invite.role.Admin?)
    && (asked == "MEMBER" ==> invite.role.Member?)
    && (asked != "ADMIN" && asked != "MEMBER" ==> invite.role.Viewer?)
  }

  // Never, seven days, or so many hours; no hours, or fewer, is never.
  predicate HasLifetime(invite: Invite, now: int, lifetime: Lifetime) {
    && (lifetime.Forever? ==> invite.expiresAt.None?)
    && (lifetime.Default? ==> invite.expiresAt == Some(now + 604_800_000))
    && (lifetime.Hours? && lifetime.n <= 0.0 ==> invite.expiresAt.None?)
    && (lifetime.Hours? && lifetime.n > 0.0 ==>
          invite.expiresAt.Some? && var ms := (invite.expiresAt.value - now) as real;
          ms <= lifetime.n * 3_600_000.0 < ms + 1.0)
  }

  /** A link is for one workspace and nobody in particular, unused; its cap is the
      whole part of the one asked for, but at least one. */
  lemma LinkIsAsAsked(s: Team, w: nat, req: Request)
    requires req.maxUses.None? || req.maxUses.value < 2_147_483_648.0
    ensures var t := LinkCreated(s, w, req);
      && s.nextInvite in t.invites && t.nextInvite == s.nextInvite + 1
      && t == s.(invites := s.invites[s.nextInvite := t.invites[s.nextInvite]], nextInvite := t.nextInvite)
      && var i := t.invites[s.nextInvite];
         && i.workspace == w && i.email.None? && i.useCount == 0
         && HasRole(i, req.role) && HasLifetime(i, s.clock, req.lifetime)
         && (req.maxUses.None? <==> i.maxUses.None?)
         && (req.maxUses.Some? && req.maxUses.value < 1.0 ==> i.maxUses == Some(1))
         && (req.maxUses.Some? && req.maxUses.value >= 1.0 ==>
               i.maxUses.value as real <= req.maxUses.value < i.maxUses.value as real + 1.0)
  {
  }

  /** One that does not fit the column is refused. */
  lemma TooManyUsesAreRefused(s: Team, w: nat, req: Request)
    requires req.maxUses.Some? && req.maxUses.value >= 2_147_483_648.0
    ensures LinkCreated(s, w, req) == s
  {
  }

  // The address is spelled like an earlier one of the request, letter case aside.
  predicate Repeats(emails: seq<string>, i: nat)
    requires i < |emails|
  {
    exists k :: 0 <= k < i && Lower(emails[k]) == Lower(emails[i])
  }

  predicate IsMembers(s: Team, w: nat, email: string) {
    exists user :: user in s.users && (user, w) in s.members && Lower(s.users[user]) == Lower(email)
  }

  predicate Reached(s: Team, w: nat, emails: seq<string>, i: nat)
    requires i < |emails|
  {
    !Repeats(emails, i) && !IsMembers(s, w, emails[i])
  }

  lemma ReachedUnlessSkipped(s: Team, w: nat, emails: seq<string>, i: nat)
    requires i < |emails|
    ensures Reached(s, w, emails, i) <==> !Skipped(s, w, emails, i)
  {
    if Repeats(emails, i) {
      var k :| 0 <= k < i && Lower(emails[k]) == Lower(emails[i]);
      assert emails[..i][k] in emails[..i];
    }
    if IsMembers(s, w, emails[i]) {
      var user :| user in s.users && (user, w) in s.members && Lower(s.users[user]) == Lower(emails[i]);
      assert (user, w) in s.members && (user, w).1 == w;
      assert Lower(s.users[user]) in MemberEmails(s, w);
    }
    if Skipped(s, w, emails, i) && Lower(emails[i]) in MemberEmails(s, w) {
      var k :| k in s.members && k.1 == w && k.0 in s.users && Lower(s.users[k.0]) == Lower(emails[i]);
      assert (k.0, w) == k;
    }
  }

  // A pending invite just as the request asks.
  predicate IsInvited(s: Team, w: nat, email: string, req: Request) {
    exists id :: id in s.invites && AsAsked(s.invites[id], s.clock, w, email, req)
  }

  predicate AsAsked(invite: Invite, now: int, w: nat, email: string, req: Request) {
    && invite.workspace == w && invite.email == Some(email) && invite.maxUses.None? && invite.useCount == 0
    && HasRole(invite, req.role) && HasLifetime(invite, now, req.lifetime)
  }

  // The invites that are not as they were.
  predicate IsWritten(s: Team, t: Team, id: nat) {
    id in t.invites && (id !in s.invites || t.invites[id] != s.invites[id])
  }

  lemma InvitingWrites(s: Team, w: nat, email: string, req: Request, id: nat)
    ensures var t := Invited(s, w, email, req);
            IsWritten(s, t, id) ==> AsAsked(t.invites[id], s.clock, w, email, req)
    ensures id in s.invites ==> id in Invited(s, w, email, req).invites
  {
  }

  lemma InvitingInvites(s: Team, w: nat, email: string, req: Request)
    ensures IsInvited(Invited(s, w, email, req), w, email, req)
  {
    var t := Invited(s, w, email, req);
    var id := match Pending(s, w, email) case Some(found) => found case None => s.nextInvite;
    assert AsAsked(t.invites[id], t.clock, w, email, req);
  }

  lemma InvitingKeepsInvited(s: Team, w: nat, email: string, req: Request, other: string)
    requires Sound(s) && IsInvited(s, w, other, req)
    ensures IsInvited(Invited(s, w, email, req), w, other, req)
  {
    var t := Invited(s, w, email, req);
    var k :| k in s.invites && AsAsked(s.invites[k], s.clock, w, other, req);
    if t.invites[k] != s.invites[k] {
      InvitingInvites(s, w, email, req);
      assert other == email;
    } else {
      assert AsAsked(t.invites[k], t.clock, w, other, req);
    }
  }

  predicate WrittenFor(s: Team, invite: Invite, w: nat, req: Request, n: nat)
    requires n <= |req.emails|
  {
    exists i :: 0 <= i < n && Reached(s, w, req.emails, i) && AsAsked(invite, s.clock, w, req.emails[i], req)
  }

  predicate AllReached(s: Team, t: Team, w: nat, req: Request, n: nat)
    requires n <= |req.emails|
  {
    forall i :: 0 <= i < n && Reached(s, w, req.emails, i) ==> IsInvited(t, w, req.emails[i], req)
  }

  predicate OnlyReached(s: Team, t: Team, w: nat, req: Request, n: nat)
    requires n <= |req.emails|
  {
    forall id :: id in t.invites && IsWritten(s, t, id) ==> WrittenFor(s, t.invites[id], w, req, n)
  }

  lemma OneMoreReached(s: Team, t: Team, w: nat, req: Request, n: nat)
    requires Sound(t) && n < |req.emails| && t.clock == s.clock && Reached(s, w, req.emails, n)
    requires AllReached(s, t, w, req, n)
    ensures AllReached(s, Invited(t, w, req.emails[n], req), w, req, n + 1)
  {
    InvitingInvites(t, w, req.emails[n], req);
    forall i | 0 <= i < n && Reached(s, w, req.emails, i)
      ensures IsInvited(Invited(t, w, req.emails[n], req), w, req.emails[i], req)
    {
      InvitingKeepsInvited(t, w, req.emails[n], req, req.emails[i]);
    }
  }

  lemma OneMoreWritten(s: Team, t: Team, w: nat, req: Request, n: nat)
    requires n < |req.emails| && t.clock == s.clock && Reached(s, w, req.emails, n)
    requires OnlyReached(s, t, w, req, n)
    ensures OnlyReached(s, Invited(t, w, req.emails[n], req), w, req, n + 1)
  {
    var u := Invited(t, w, req.emails[n], req);
    forall id | id in u.invites && IsWritten(s, u, id)
      ensures WrittenFor(s, u.invites[id], w, req, n + 1)
    {
      InvitingWrites(t, w, req.emails[n], req, id);
      if !IsWritten(t, u, id) {
        assert IsWritten(s, t, id);
        var i :| 0 <= i < n && Reached(s, w, req.emails, i) && AsAsked(t.invites[id], s.clock, w, req.emails[i], req);
      }
    }
  }

  lemma OneMoreSkipped(s: Team, t: Team, w: nat, req: Request, n: nat)
    requires n < |req.emails| && !Reached(s, w, req.emails, n)
    requires AllReached(s, t, w, req, n) && OnlyReached(s, t, w, req, n)
    ensures AllReached(s, t, w, req, n + 1) && OnlyReached(s, t, w, req, n + 1)
  {
    forall id | id in t.invites && IsWritten(s, t, id)
      ensures WrittenFor(s, t.invites[id], w, req, n + 1)
    {
      assert WrittenFor(s, t.invites[id], w, req, n);
    }
  }

  /** After an invitation each new spelling that is no member's has a pending invite
      just as asked; an invite that is new or changed is for one of these; and no
      invite is lost. */
  lemma {:induction false} InvitationsReach(s: Team, w: nat, req: Request, n: nat)
    requires Sound(s) && w in s.workspaces && n <= |req.emails|
    ensures var t := InvitedUpTo(s, w, req, n);
      && AllReached(s, t, w, req, n) && OnlyReached(s, t, w, req, n)
      && forall id :: id in s.invites ==> id in t.invites
  {
    if n == 0 {
    } else {
      var t := InvitedUpTo(s, w, req, n - 1);
      InvitationsReach(s, w, req, n - 1);
      UpToKeepsSound(s, w, req, n - 1);
      ReachedUnlessSkipped(s, w, req.emails, n - 1);
      if Reached(s, w, req.emails, n - 1) {
        OneMoreReached(s, t, w, req, n - 1);
        OneMoreWritten(s, t, w, req, n - 1);
        forall id | id in s.invites ensures id in Invited(t, w, req.emails[n - 1], req).invites {
          InvitingWrites(t, w, req.emails[n - 1], req, id);
        }
      } else {
        OneMoreSkipped(s, t, w, req, n - 1);
      }
    }
  }

  /** A request with addresses reaches all of them; one without makes one link; one
      for a workspace that is not there does nothing. */
  lemma GeneratingReaches(s: Team, w: nat, req: Request)
    requires Sound(s)
    ensures var t := InvitesGenerated(s, w, req);
      && (w !in s.workspaces ==> t == s)
      && (w in s.workspaces && |req.emails| == 0 ==> t == LinkCreated(s, w, req))
      && (w in s.workspaces && |req.emails| > 0 ==>
            AllReached(s, t, w, req, |req.emails|) && OnlyReached(s, t, w, req, |req.emails|))
  {
    if w in s.workspaces {
      InvitationsReach(s, w, req, |req.emails|);
    }
  }

  // ---------------------------------------------------------------- Members

  /** Roles change for members that are not the owner, to one of three; removal takes
      such a member out; both leave everybody else alone. */
  lemma MembersChange(s: Team, user: nat, w: nat, role: string)
    ensures var t := MemberRemoved(s, user, w);
      t == s.(members := if (user, w) in s.members && !s.members[(user, w)].Owner?
                         then s.members - {(user, w)} else s.members)
    ensures var t := RoleUpdated(s, user, w, role);
      && t == s.(members := t.members) && t.members.Keys == s.members.Keys
      && (forall k :: k in s.members && k != (user, w) ==> t.members[k] == s.members[k])
      && ((user, w) in s.members ==>
            var was, now := s.members[(user, w)], t.members[(user, w)];
            && (was.Owner? ==> now.Owner?)
            && (!was.Owner? && role == "ADMIN" ==> now.Admin?)
            && (!was.Owner? && role == "MEMBER" ==> now.Member?)
            && (!was.Owner? && role == "VIEWER" ==> now.Viewer?)
            && (role != "ADMIN" && role != "MEMBER" && role != "VIEWER" ==> now == was))
  {
  }

  // ------------------------------------------------------------- Workspaces

  predicate SlugIsFree(s: Team, slug: string) { forall v :: v in s.workspaces ==> s.workspaces[v] != slug }

  /** A new workspace has the slug, one member, and that one owns it. */
  lemma CreationAdds(s: Team, user: nat, slug: string)
    ensures var t := WorkspaceCreated(s, user, slug);
      if user in s.users && SlugIsFree(s, slug)
      then t == s.(workspaces := s.workspaces[s.nextWorkspace := slug],
                   members := s.members[(user, s.nextWorkspace) := Owner], nextWorkspace := s.nextWorkspace + 1)
      else t == s
  {
  }

  /** Owners and admins may rename, to a slug nobody else has. */
  lemma RenamingChangesSlug(s: Team, user: nat, w: nat, slug: string)
    requires w in s.workspaces && (user, w) in s.members
    ensures var t, role := Renamed(s, user, w, slug), s.members[(user, w)];
      && t == s.(workspaces := t.workspaces) && t.workspaces.Keys == s.workspaces.Keys
      && (forall v :: v in s.workspaces && v != w ==> t.workspaces[v] == s.workspaces[v])
      && t.workspaces[w] ==
         if (role.Owner? || role.Admin?) && (forall v :: v in s.workspaces && v != w ==> s.workspaces[v] != slug)
         then slug else s.workspaces[w]
  {
  }

  // Everything of the workspaces that are gone is gone, and nothing else.
  ghost predicate Cascades(s: Team, t: Team, gone: set<nat>) {
    && (forall w :: w in t.workspaces <==> w in s.workspaces && w !in gone)
    && (forall w :: w in t.workspaces ==> t.workspaces[w] == s.workspaces[w])
    && (forall id :: id in t.invites <==> id in s.invites && s.invites[id].workspace !in gone)
    && (forall id :: id in t.invites ==> t.invites[id] == s.invites[id])
    && t.clock == s.clock && t.nextUser == s.nextUser && t.nextWorkspace == s.nextWorkspace &&
       t.nextInvite == s.nextInvite
  }

  lemma WorkspaceDeletionCascades(s: Team, user: nat, w: nat)
    ensures !((user, w) in s.members && s.members[(user, w)].Owner?) ==> WorkspaceDeleted(s, user, w) == s
    ensures (user, w) in s.members && s.members[(user, w)].Owner? ==>
      var t := WorkspaceDeleted(s, user, w);
      && Cascades(s, t, {w}) && t.users == s.users
      && (forall k :: k in t.members <==> k in s.members && k.1 != w)
      && (forall k :: k in t.members ==> t.members[k] == s.members[k])
  {
  }

  predicate OwnsIt(s: Team, user: nat, w: nat) { (user, w) in s.members && s.members[(user, w)].Owner? }

  /** An account takes the workspaces it owns with it, its other memberships, and
      nothing of anybody else. */
  lemma AccountDeletionCascades(s: Team, user: nat, gone: set<nat>)
    requires user in s.users && forall w :: w in gone <==> OwnsIt(s, user, w)
    ensures var t := AccountDeleted(s, user, true);
      && Cascades(s, t, gone) && t.users == s.users - {user}
      && (forall k :: k in t.members <==> k in s.members && k.1 !in gone && k.0 != user)
      && (forall k :: k in t.members ==> t.members[k] == s.members[k])
    ensures AccountDeleted(s, user, false) == s
  {
    assert OwnedBy(s, user) == gone by {
      forall w ensures w in OwnedBy(s, user) <==> w in gone {
        assert OwnsIt(s, user, w) ==> (user, w) in s.members && (user, w).1 == w;
      }
    }
  }
}
