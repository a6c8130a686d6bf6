/**
 * The administrators' sidebar (`app/components/AdminSidebar.tsx`): the
 * identity shown with its fallbacks, the avatar initials and the four
 * navigation buttons of the admin console.
 */
module AdminSidebar {
  import opened Base
  import opened Text
  import opened Seqs
  import opened Sidebar

  /** The `active` prop: the four admin pages. */
  datatype AdminKey = Overview | Users | CoursesKey | Activity

  const AdminNav: seq<NavItem<AdminKey>> := [
    NavItem(Overview, "Overview", "/admin"),
    NavItem(Users, "Users & Roles", "/admin/users"),
    NavItem(CoursesKey, "Courses & Enrollments", "/admin/courses"),
    NavItem(Activity, "Activity & Progress", "/admin/activity")
  ]

  /** What the sidebar shows of the signed-in administrator. */
  datatype Identity = Identity(name: string, email: string, initials: string)

  /**
   * `displayName` and `displayEmail`: the profile's values, or the console's
   * defaults when missing; the avatar shows the initials of the displayed
   * name, which is never missing.
   */
  function Shown(fullName: Option<string>, email: Option<string>): (id: Identity)
    ensures id.name != "" && id.email != ""
    ensures Truthy(fullName) ==> id.name == fullName.value
    ensures !Truthy(fullName) ==> id.name == "Admin User"
    ensures Truthy(email) ==> id.email == email.value
    ensures !Truthy(email) ==> id.email == "admin@anchorp.com"
    ensures id.initials == Initials(Some(id.name), "AU")
    ensures |id.initials| <= 2
  {
    var name := OrElse(fullName, "Admin User");
    Identity(name, OrElse(email, "admin@anchorp.com"), Initials(Some(name), "AU"))
  }

  /** The initials of a two-word name without spaces inside its words or at its ends. */
  lemma TwoWordInitials(name: string, first: string, last: string, fallback: string)
    requires name == first + " " + last
    requires ' ' !in first && ' ' !in last && first != "" && last != ""
    requires !IsWhiteSpace(first[0]) && !IsWhiteSpace(last[|last| - 1])
    ensures Initials(Some(name), fallback) == [UpperChar(first[0]), UpperChar(last[0])]
  {
    TrimStartSpec(name);
    TrimEndSpec(name);
    assert name[0] == first[0] && name[|name| - 1] == last[|last| - 1];
    assert Trim(name) == name;
    InitialsByWords(Some(name), fallback);
    FirstWordOfJoin(first, last);
    FirstWordOfWord(first);
    AfterLastOfJoin(first, last, ' ');
  }

  /**
   * Without a profile name the avatar still reads "AU": the initials of
   * "Admin User", so the function's own "AU" fallback is never reached.
   */
  lemma AvatarWithoutName(fullName: Option<string>, email: Option<string>)
    requires !Truthy(fullName)
    ensures Shown(fullName, email).initials == "AU"
  {
    var name := OrElse(fullName, "Admin User");
    assert Initials(Some(name), "AU") == "AU" by {
      TwoWordInitials(name, "Admin", "User", "AU");
    }
    assert Shown(fullName, email).initials == Initials(Some(name), "AU");
  }

  /** Exactly one of the four buttons is drawn active, whichever page is shown. */
  lemma OneAdminItemActive(active: AdminKey)
    ensures Count(AdminNav, IsActive(active)) == 1
  {
    assert Keys(AdminNav) == [Overview, Users, CoursesKey, Activity];
    OneActiveItem(AdminNav, active);
  }
}
