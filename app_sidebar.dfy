/**
 * The learners' sidebar (`app/components/AppSidebar.tsx`): the identity
 * shown with its fallbacks, the avatar initials and the six navigation
 * buttons.
 */
module AppSidebar {
  import opened Base
  import opened Text
  import opened Seqs
  import opened Sidebar

  /** `SidebarKey`: the six learner pages. */
  datatype SidebarKey = Dashboard | MyCourses | AllCourses | Certificates | Reports | Settings

  /** `navItems`. */
  const NavItems: seq<NavItem<SidebarKey>> := [
    NavItem(Dashboard, "Dashboard", "/dashboard"),
    NavItem(MyCourses, "My Courses", "/my-courses"),
    NavItem(AllCourses, "All Courses", "/courses"),
    NavItem(Certificates, "Certificates", "/certificates"),
    NavItem(Reports, "Reports", "/reports"),
    NavItem(Settings, "Settings", "/settings")
  ]

  /** What the sidebar shows of the signed-in learner. */
  datatype Identity = Identity(name: string, email: string, initials: string)

  /**
   * `displayName`, `displayEmail` and `initials`: the name falls back to
   * "Learner" and the address to nothing, but the initials are computed from
   * the profile name itself, not from the displayed one.
   */
  function Shown(fullName: Option<string>, email: Option<string>): (id: Identity)
    ensures id.name != ""
    ensures Truthy(fullName) ==> id.name == fullName.value
    ensures !Truthy(fullName) ==> id.name == "Learner"
    ensures id.email != "" <==> Truthy(email)
    ensures Truthy(email) ==> id.email == email.value
    ensures !Truthy(fullName) ==> id.initials == "U"
    ensures id.initials == Initials(fullName, "U")
    ensures |id.initials| <= 2
  {
    Identity(OrElse(fullName, "Learner"), OrElse(email, ""), Initials(fullName, "U"))
  }

  /** A learner without a name is shown as "Learner" with the avatar "U", not the initial of "Learner". */
  lemma MissingNameShowsLearnerAndU(fullName: Option<string>, email: Option<string>)
    requires !Truthy(fullName)
    ensures var id := Shown(fullName, email);
      id.initials != [UpperChar(id.name[0])]
  {
  }

  /** Exactly one of the six buttons is drawn active, and no two buttons open the same page. */
  lemma OneNavItemActive(active: SidebarKey)
    ensures Count(NavItems, IsActive(active)) == 1
    ensures forall i, j :: 0 <= i < j < |NavItems| ==> NavItems[i].href != NavItems[j].href
  {
    assert Keys(NavItems) == [Dashboard, MyCourses, AllCourses, Certificates, Reports, Settings];
    OneActiveItem(NavItems, active);
  }
}
