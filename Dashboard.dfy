/** The dashboard page (src/pages/Dashboard.tsx): who may see it, where the
    others are sent, and which tabs it shows. */
module Dashboard {
  import opened Wrappers
  import opened Schema
  import AuthContext

  /** A signed-in vendor or admin. */
  predicate HasAccess(user: Option<AuthContext.AuthUser>, role: Option<Role>) {
    user.Some? && (role == Some(Vendor) || role == Some(Admin))
  }

  datatype Tab = StatsTab | OffersTab | AnnouncementsTab | UsersTab | LogsTab

  /** The tab list: the users tab only for an admin. */
  function Tabs(role: Role): (tabs: seq<Tab>)
    ensures |tabs| >= 4 && tabs[0] == StatsTab && tabs[|tabs| - 1] == LogsTab
  {
    [StatsTab, OffersTab, AnnouncementsTab] + (if role == Admin then [UsersTab] else []) + [LogsTab]
  }

  datatype View = Loader | Blank | Page(tabs: seq<Tab>)

  function PageView(loading: bool, user: Option<AuthContext.AuthUser>, role: Option<Role>): View {
    if loading then Loader
    else if !HasAccess(user, role) then Blank
    else Page(Tabs(role.value))
  }

  /** The effect's navigation target, if any. */
  function Redirect(loading: bool, user: Option<AuthContext.AuthUser>, role: Option<Role>): Option<string> {
    if !loading && !HasAccess(user, role) then Some("/") else None
  }

  /** The page shows its tabs iff loading is over and a vendor or admin is
      signed in; every other visitor is sent home once loading is over, and
      nobody is sent anywhere while it lasts. */
  lemma AccessRule(loading: bool, user: Option<AuthContext.AuthUser>, role: Option<Role>)
    ensures PageView(loading, user, role).Page? <==> !loading && user.Some? && (role == Some(Vendor) || role == Some(Admin))
    ensures Redirect(loading, user, role).Some? <==> PageView(loading, user, role) == Blank
    ensures Redirect(loading, user, role).Some? ==> Redirect(loading, user, role).value == "/"
    ensures loading ==> Redirect(loading, user, role).None? && PageView(loading, user, role) == Loader
  {
  }

  /** The users tab appears iff the role is admin. */
  lemma UsersTabIffAdmin(role: Role)
    ensures UsersTab in Tabs(role) <==> role == Admin
  {
    assert role != Admin ==> Tabs(role) == [StatsTab, OffersTab, AnnouncementsTab, LogsTab];
  }

  /** The role the context fetched admits the user iff some role row gives
      vendor or admin and none gives client, the role that sorts first. */
  lemma FetchedRoleAccess(user: AuthContext.AuthUser, rows: seq<AuthContext.RoleRow>, lookupFails: bool)
    ensures var role := AuthContext.FetchRole(rows, user.id, lookupFails);
      HasAccess(Some(user), Some(role)) <==>
        !lookupFails && AuthContext.HasRoleRow(rows, user.id)
        && forall i | 0 <= i < |rows| && rows[i].userId == user.id :: rows[i].role != Client
  {
    var role := AuthContext.FetchRole(rows, user.id, lookupFails);
    if !lookupFails && AuthContext.HasRoleRow(rows, user.id) && role == Client {
      var i :| 0 <= i < |rows| && rows[i].userId == user.id && rows[i].role == role;
    }
  }
}
