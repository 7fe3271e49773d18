/** fe/src/components/Sidebar.jsx: the navigation links. The list for a
    signed-in user is built as a literal and then gets the staff entry
    pushed on; the list for a visitor is a literal. */
module Sidebar {
  import opened Common
  import opened Http
  import AuthMiddleware
  import Admin

  datatype NavLink = NavLink(to: string, caption: string)

  /** The stored user as the sidebar reads it: only its role matters. */
  datatype SideUser = SideUser(role: Option<string>)

  const VisitorLinks: seq<NavLink> :=
    [NavLink("/", "Home"), NavLink("/login", "Login"), NavLink("/register", "Register")]

  const MemberLinks: seq<NavLink> :=
    [NavLink("/", "Home"), NavLink("/ideas/new", "Unggah Ide"), NavLink("/me", "Profil")]

  /** `user.role && ["admin", "moderator"].includes(user.role)`. */
  predicate StaffRole(u: SideUser) {
    TruthyStr(u.role) && u.role.value in ["admin", "moderator"]
  }

  /** The `links` memo. */
  method Links(user: Option<SideUser>) returns (items: seq<NavLink>)
    ensures user.None? ==> items == VisitorLinks
    ensures user.Some? && !StaffRole(user.value) ==> items == MemberLinks
    ensures user.Some? && StaffRole(user.value) ==>
              items == MemberLinks + [NavLink("/admin", if user.value.role == Some("admin") then "Admin" else "Moderator")]
    ensures NavLink("/admin", "Admin") in items <==> user.Some? && user.value.role == Some("admin")
    ensures NavLink("/admin", "Moderator") in items <==> user.Some? && user.value.role == Some("moderator")
  {
    if user.Some? {
      items := [NavLink("/", "Home"), NavLink("/ideas/new", "Unggah Ide"), NavLink("/me", "Profil")];
      if StaffRole(user.value) {
        var caption := if user.value.role == Some("admin") then "Admin" else "Moderator";
        items := items + [NavLink("/admin", caption)];
      }
      return items;
    }
    items := [NavLink("/", "Home"), NavLink("/login", "Login"), NavLink("/register", "Register")];
  }

  /** The Logout button is shown only to a signed-in user. */
  predicate ShowsLogout(user: Option<SideUser>) {
    user.Some?
  }

  /** The sidebar offers the admin page to exactly the roles the admin
      routes let through. */
  lemma AdminLinkMatchesGate(p: Principal)
    ensures StaffRole(SideUser(Some(p.role))) <==> Admin.StaffGate(Some(p)).None?
  {
    assert AuthMiddleware.Staff == ["admin", "moderator"];
  }
}
