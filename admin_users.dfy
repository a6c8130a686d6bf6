/**
 * The user administration page (`app/admin/users/page.tsx`): the list
 * filter by user type and search text, the role written for a role option
 * and the in-place update of the loaded list, and the user type, role and
 * redirect of an invitation.
 */
module AdminUsers {
  import opened Base
  import opened Text
  import opened Seqs

  /** A `profiles` row as the page loads it. */
  datatype UserProfile = UserProfile(id: string, full_name: Option<string>, email: Option<string>,
                                     user_type: Option<string>, role: Option<string>)

  // ---------- filtering ----------

  /** `search.toLowerCase().trim()`. */
  function SearchTerm(search: string): string
  {
    Trim(Lower(search))
  }

  /** The test `users.filter(...)` applies to one user; `typeFilter` is "all", "internal" or "external". */
  predicate KeepUser(u: UserProfile, typeFilter: string, search: string)
    ensures SearchTerm(search) == "" ==>
      (KeepUser(u, typeFilter, search) <==> typeFilter == "all" || u.user_type == Some(typeFilter))
    ensures KeepUser(u, typeFilter, search) && SearchTerm(search) != "" ==>
      Contains(Lower(OrElse(u.full_name, "")), SearchTerm(search)) || Contains(Lower(OrElse(u.email, "")), SearchTerm(search))
  {
    var term := SearchTerm(search);
    (typeFilter == "all" || u.user_type == Some(typeFilter))
    && (term == ""
        || Contains(Lower(OrElse(u.full_name, "")), term)
        || Contains(Lower(OrElse(u.email, "")), term))
  }

  function KeepFor(typeFilter: string, search: string): UserProfile -> bool
  {
    u => KeepUser(u, typeFilter, search)
  }

  /** `filteredUsers`: the users passing the type filter and the search, in list order. */
  function FilteredUsers(users: seq<UserProfile>, typeFilter: string, search: string): (r: seq<UserProfile>)
    ensures forall u :: u in r <==> u in users && KeepUser(u, typeFilter, search)
    ensures IsSubsequence(r, users)
  {
    FilterIsSubsequence(users, KeepFor(typeFilter, search));
    Filter(users, KeepFor(typeFilter, search))
  }

  /** With the "all" filter and a search of only white space, every user is listed, in order. */
  lemma FilterAllBlank(users: seq<UserProfile>, search: string)
    requires forall i :: 0 <= i < |search| ==> IsWhiteSpace(search[i])
    ensures FilteredUsers(users, "all", search) == users
  {
    assert forall i :: 0 <= i < |Lower(search)| ==> IsWhiteSpace(Lower(search)[i]);
    TrimBlank(Lower(search));
    FilterKeepsAll(users, KeepFor("all", search));
  }

  /** A user whose type differs from a specific filter is never listed. */
  lemma FilterExcludesOtherTypes(users: seq<UserProfile>, typeFilter: string, search: string, u: UserProfile)
    requires typeFilter != "all" && u.user_type != Some(typeFilter)
    ensures u !in FilteredUsers(users, typeFilter, search)
  {
  }

  /** The search ignores the letter case of the search text. */
  lemma SearchIgnoresCase(u: UserProfile, typeFilter: string, search: string)
    ensures KeepUser(u, typeFilter, search) == KeepUser(u, typeFilter, Lower(search))
  {
    LowerIdempotent(search);
  }

  // ---------- role update ----------

  /** The options of the role dropdown. */
  type RoleOption = r: string | r == "" || r == "admin" || r == "employee" || r == "potential_customer"
    witness ""

  /** `newRole === "" ? null : newRole`. */
  function RoleToSave(newRole: RoleOption): (r: Option<string>)
    ensures r.None? <==> newRole == ""
    ensures r.Some? ==> r.value == newRole
  {
    if newRole == "" then None else Some(newRole)
  }

  /** `prev.map(u => u.id === userId ? { ...u, role } : u)`. */
  function ApplyRole(users: seq<UserProfile>, userId: string, role: Option<string>): (r: seq<UserProfile>)
    ensures |r| == |users|
    ensures forall i :: 0 <= i < |r| && users[i].id == userId ==> r[i] == users[i].(role := role)
    ensures forall i :: 0 <= i < |r| && users[i].id != userId ==> r[i] == users[i]
  {
    seq(|users|, i requires 0 <= i < |users| => if users[i].id == userId then users[i].(role := role) else users[i])
  }

  predicate DistinctIds(users: seq<UserProfile>)
  {
    forall i, j :: 0 <= i < j < |users| ==> users[i].id != users[j].id
  }

  /**
   * With distinct ids, a role update changes at most one record, only in its
   * role, and keeps the ids distinct.
   */
  lemma ApplyRoleChangesOne(users: seq<UserProfile>, userId: string, role: Option<string>)
    requires DistinctIds(users)
    ensures var r := ApplyRole(users, userId, role);
      DistinctIds(r)
      && (forall i, j :: 0 <= i < j < |users| ==> r[i] == users[i] || r[j] == users[j])
      && (forall i :: 0 <= i < |users| ==> r[i].(role := users[i].role) == users[i])
  {
  }

  /** Applying the same update twice is the same as applying it once. */
  lemma ApplyRoleIdempotent(users: seq<UserProfile>, userId: string, role: Option<string>)
    ensures ApplyRole(ApplyRole(users, userId, role), userId, role) == ApplyRole(users, userId, role)
  {
  }

  // ---------- invitations ----------

  datatype InviteMode = InviteInternal | InviteExternal | InviteAdmin

  /** The user type sent with an invitation: admins are invited as internal users. */
  function InviteUserType(mode: InviteMode): (t: string)
    ensures t == "external" <==> mode == InviteExternal
    ensures t == "internal" <==> mode != InviteExternal
  {
    if mode == InviteExternal then "external" else "internal"
  }

  /** The role sent with an invitation: "admin" for admin invitations, null otherwise. */
  function InviteRole(mode: InviteMode): (r: Option<string>)
    ensures r.Some? <==> mode == InviteAdmin
    ensures r.Some? ==> r.value == "admin"
  {
    if mode == InviteAdmin then Some("admin") else None
  }

  /** `${origin}/signup?${params}`, where `role` is added to the parameters only when set. */
  function RedirectTo(origin: string, mode: InviteMode): (url: string)
    ensures StartsWith(url, origin + "/signup?type=" + InviteUserType(mode))
    ensures mode != InviteAdmin ==> url == origin + "/signup?type=" + InviteUserType(mode)
    ensures mode == InviteAdmin ==> url == origin + "/signup?type=internal&role=admin"
  {
    var base := origin + "/signup?type=" + InviteUserType(mode);
    var role := InviteRole(mode);
    var url := if role.Some? then base + "&role=" + role.value else base;
    assert url[..|base|] == base;
    url
  }

  /** The label in the success message. */
  function InviteLabel(mode: InviteMode): string
  {
    match mode
    case InviteInternal => "internal"
    case InviteExternal => "external"
    case InviteAdmin => "admin"
  }

  /** The one-time-password sign-in request an invitation sends. */
  datatype Invite = Invite(email: string, redirectTo: string, user_type: string, role: Option<string>,
                           invited_by: Option<string>)

  /** What the sign-in request answered. */
  datatype InviteOutcome = Sent | Refused(message: string) | Threw

  /** A role update sent to the `profiles` table. */
  datatype RoleUpdate = RoleUpdate(id: string, role: Option<string>)

  /** The page's state that the modelled handlers read and write. */
  class AdminUsersPage {
    var users: seq<UserProfile>
    var updateMessage: Option<string>
    var inviteMode: Option<InviteMode>
    var inviteEmail: string
    var inviteMessage: Option<string>

    constructor (loaded: seq<UserProfile>)
      ensures users == loaded && updateMessage == None
      ensures inviteMode == None && inviteEmail == "" && inviteMessage == None
    {
      users := loaded;
      updateMessage := None;
      inviteMode := None;
      inviteEmail := "";
      inviteMessage := None;
    }

    /**
     * `handleRoleChange`: the update sent, then either the error message with
     * the list untouched, or the list with that user's role replaced.
     */
    method HandleRoleChange(userId: string, newRole: RoleOption, failed: bool) returns (update: RoleUpdate)
      modifies this
      ensures update == RoleUpdate(userId, RoleToSave(newRole))
      ensures inviteMode == old(inviteMode) && inviteEmail == old(inviteEmail) && inviteMessage == old(inviteMessage)
      ensures failed ==> users == old(users) && updateMessage == Some("Error updating role. Please try again.")
      ensures !failed ==> users == ApplyRole(old(users), userId, RoleToSave(newRole)) && updateMessage == Some("Role updated.")
    {
      updateMessage := None;
      var roleToSave := RoleToSave(newRole);
      update := RoleUpdate(userId, roleToSave);
      if failed {
        updateMessage := Some("Error updating role. Please try again.");
      } else {
        users := ApplyRole(users, userId, roleToSave);
        updateMessage := Some("Role updated.");
      }
    }

    /**
     * `handleSendInvite`: nothing without an invitation mode, a message for a
     * blank address, and otherwise the request sent and the message for its
     * outcome; a sent invitation clears the form.
     */
    method HandleSendInvite(origin: string, adminId: Option<string>, outcome: InviteOutcome)
      returns (request: Option<Invite>)
      modifies this
      ensures users == old(users) && updateMessage == old(updateMessage)
      ensures old(inviteMode).None? ==>
        request.None? && inviteMode == old(inviteMode) && inviteEmail == old(inviteEmail) && inviteMessage == old(inviteMessage)
      ensures old(inviteMode).Some? && Trim(old(inviteEmail)) == "" ==>
        request.None? && inviteMode == old(inviteMode) && inviteEmail == old(inviteEmail)
        && inviteMessage == Some("Please enter an email address.")
      ensures old(inviteMode).Some? && Trim(old(inviteEmail)) != "" ==>
        var mode, email := old(inviteMode).value, Trim(old(inviteEmail));
        request == Some(Invite(email, RedirectTo(origin, mode), InviteUserType(mode), InviteRole(mode), adminId))
        && (outcome == Sent ==>
              inviteMessage == Some("Invite sent to " + email + " (" + InviteLabel(mode) + " user).")
              && inviteEmail == "" && inviteMode.None?)
        && (outcome.Refused? ==>
              inviteMessage == Some("Error sending invite: " + outcome.message)
              && inviteEmail == old(inviteEmail) && inviteMode == old(inviteMode))
        && (outcome == Threw ==>
              inviteMessage == Some("Unexpected error sending invite.")
              && inviteEmail == old(inviteEmail) && inviteMode == old(inviteMode))
    {
      request := None;
      if inviteMode.None? {
        return;
      }
      var mode := inviteMode.value;
      var email := Trim(inviteEmail);
      if email == "" {
        inviteMessage := Some("Please enter an email address.");
        return;
      }
      inviteMessage := None;
      request := Some(Invite(email, RedirectTo(origin, mode), InviteUserType(mode), InviteRole(mode), adminId));
      match outcome
      case Threw =>
        inviteMessage := Some("Unexpected error sending invite.");
      case Refused(message) =>
        inviteMessage := Some("Error sending invite: " + message);
      case Sent =>
        inviteMessage := Some("Invite sent to " + email + " (" + InviteLabel(mode) + " user).");
        inviteEmail := "";
        inviteMode := None;
    }
  }
}
