/** The navigation bar (src/components/Navbar.tsx): the name it shows, the role
    label and the items of the user menu. */
module Navbar {
  import opened Wrappers
  import opened Schema
  import JsText
  import AuthContext
  import Dashboard

  /** `profile?.username || user?.email?.split('@')[0] || "User"`. */
  function DisplayName(username: Option<string>, email: Option<string>): (name: string)
    ensures name != ""
    ensures Present(username) ==> name == username.value
  {
    if Present(username) then username.value
    else if email.Some? && JsText.FirstPiece(email.value, '@') != "" then JsText.FirstPiece(email.value, '@')
    else "User"
  }

  /** Without a user name, the name shown is the address up to its first "@"
      when that is not empty, and "User" otherwise. */
  lemma DisplayNameFallback(username: Option<string>, email: string)
    requires !Present(username)
    ensures var name := DisplayName(username, Some(email));
      name == "User" || ('@' !in name && |name| <= |email| && email[..|name|] == name
                         && (|name| < |email| ==> email[|name|] == '@'))
    ensures ('@' !in email && email != "") ==> DisplayName(username, Some(email)) == email
    ensures (email != "" && email[0] == '@') ==> DisplayName(username, Some(email)) == "User"
  {
    var p := JsText.FirstPiece(email, '@');
    assert |p| > 0 ==> p[0] == email[0];
  }

  /** `role || "client"`. */
  function RoleLabel(role: Option<Role>): (text: string)
    ensures role.None? ==> text == "client"
    ensures role.Some? ==> text == RoleName(role.value)
  {
    if role.None? then "client" else RoleName(role.value)
  }

  datatype MenuItem = StatsItem | DashboardItem | SignOutItem

  datatype NavView = LoginButton | UserMenu(name: string, roleText: string, items: seq<MenuItem>)

  function Items(role: Option<Role>): seq<MenuItem> {
    [StatsItem] + (if role == Some(Vendor) || role == Some(Admin) then [DashboardItem] else []) + [SignOutItem]
  }

  function View(user: Option<AuthContext.AuthUser>, username: Option<string>, role: Option<Role>): NavView {
    if user.None? then LoginButton
    else UserMenu(DisplayName(username, user.value.email), RoleLabel(role), Items(role))
  }

  /** The login button shows iff nobody is signed in; the dashboard item
      shows iff the dashboard would let the signed-in user in. */
  lemma MenuRules(user: Option<AuthContext.AuthUser>, username: Option<string>, role: Option<Role>)
    ensures View(user, username, role) == LoginButton <==> user.None?
    ensures user.Some? ==> (DashboardItem in View(user, username, role).items <==> Dashboard.HasAccess(user, role))
  {
    if user.Some? && !(role == Some(Vendor) || role == Some(Admin)) {
      assert Items(role) == [StatsItem, SignOutItem];
    }
  }
}
