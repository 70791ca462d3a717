/** The admin's user manager (src/components/dashboard/UsersManager.tsx): the
    list that joins profiles with their role rows, the search box, the edit
    dialog with its profile and role writes, the ban toggle and the role
    badge.

    The answer of each table write is an input of the operation. */
module UsersManager {
  import opened Wrappers
  import opened Schema
  import opened Seqs
  import JsText
  import AuthContext
  import BanUser

  /** A `profiles` row as the list query reads it. */
  datatype ProfileRow = ProfileRow(id: string, username: string, active: bool, createdAt: int,
                                   lastLogin: Option<int>, ipLastLogin: Option<string>)

  /** A row of the list: the profile's columns and the role found for it. */
  datatype UserWithRole = UserWithRole(id: string, username: string, active: bool, createdAt: int,
                                       lastLogin: Option<int>, ipLastLogin: Option<string>, role: Role)

  // ---------------------------------------------------------------------------
  // The list

  /** The position of the first role row of `userId`, or `|rows|` if none. */
  function FirstRowIndex(rows: seq<AuthContext.RoleRow>, userId: string): (k: nat)
    ensures k <= |rows|
    ensures forall j | 0 <= j < k :: rows[j].userId != userId
    ensures k < |rows| ==> rows[k].userId == userId
  {
    if rows == [] then 0
    else if rows[0].userId == userId then 0
    else
      var k := FirstRowIndex(rows[1..], userId);
      assert forall j | 1 <= j < k + 1 :: rows[j] == rows[1..][j - 1];
      k + 1
  }

  /** `roles.find(r => r.user_id === id)?.role || "client"`. */
  function ListedRole(rows: seq<AuthContext.RoleRow>, userId: string): Role {
    var k := FirstRowIndex(rows, userId);
    if k < |rows| then rows[k].role else Client
  }

  function WithRole(p: ProfileRow, role: Role): UserWithRole {
    UserWithRole(p.id, p.username, p.active, p.createdAt, p.lastLogin, p.ipLastLogin, role)
  }

  /** The list query: every profile, in the query's order, with its role. */
  function Merge(profiles: seq<ProfileRow>, rows: seq<AuthContext.RoleRow>): (users: seq<UserWithRole>)
    ensures |users| == |profiles|
    ensures forall i | 0 <= i < |users| :: users[i].id == profiles[i].id
  {
    seq(|profiles|, i requires 0 <= i < |profiles| => WithRole(profiles[i], ListedRole(rows, profiles[i].id)))
  }

  /** Each listed user keeps its profile's columns and gets the role of the
      first role row that names it, or client when no row does. */
  lemma MergeRoles(profiles: seq<ProfileRow>, rows: seq<AuthContext.RoleRow>, i: int)
    requires 0 <= i < |profiles|
    ensures var u := Merge(profiles, rows)[i];
      && WithRole(profiles[i], u.role) == u
      && (!AuthContext.HasRoleRow(rows, profiles[i].id) ==> u.role == Client)
      && (forall k | 0 <= k < |rows| && rows[k].userId == profiles[i].id
                     && (forall j | 0 <= j < k :: rows[j].userId != profiles[i].id) :: u.role == rows[k].role)
  {
    var id := profiles[i].id;
    var f := FirstRowIndex(rows, id);
    var u := Merge(profiles, rows)[i];
    assert u == WithRole(profiles[i], ListedRole(rows, id));
    assert f < |rows| ==> rows[f].userId == id;
    // any first row naming the user is the row at `f`
    forall k | 0 <= k < |rows| && rows[k].userId == id && (forall j | 0 <= j < k :: rows[j].userId != id)
      ensures u.role == rows[k].role
    {
      assert k == f;
    }
  }

  // ---------------------------------------------------------------------------
  // Search

  /** The search test: the lower-cased term occurs in the lower-cased user
      name or id. */
  predicate Matches(u: UserWithRole, term: string) {
    JsText.Contains(JsText.Lower(u.username), JsText.Lower(term))
    || JsText.Contains(JsText.Lower(u.id), JsText.Lower(term))
  }

  function MatchesTerm(term: string): UserWithRole -> bool {
    u => Matches(u, term)
  }

  /** `filteredUsers`. */
  function Search(users: seq<UserWithRole>, term: string): (found: seq<UserWithRole>)
    ensures |found| <= |users|
  {
    Filter(users, MatchesTerm(term))
  }

  /** A user is listed iff it is in the list and matches the term. */
  lemma SearchMembership(users: seq<UserWithRole>, term: string, u: UserWithRole)
    ensures u in Search(users, term) <==> u in users && Matches(u, term)
  {
    var found := Search(users, term);
    if u in found {
      var i :| 0 <= i < |found| && found[i] == u;
      assert MatchesTerm(term)(found[i]);
    }
    if u in users && Matches(u, term) {
      var i :| 0 <= i < |users| && users[i] == u;
      assert MatchesTerm(term)(users[i]);
    }
  }

  /** The empty search box lists everyone, in order. */
  lemma SearchEmptyTerm(users: seq<UserWithRole>)
    ensures Search(users, "") == users
  {
    forall i | 0 <= i < |users| ensures MatchesTerm("")(users[i]) {
      JsText.EmptyContained(JsText.Lower(users[i].username));
      assert JsText.Lower("") == "";
    }
    FilterKeepsAll(users, MatchesTerm(""));
  }

  /** Searching ignores the case of the term. */
  lemma SearchIgnoresCase(users: seq<UserWithRole>, term: string)
    ensures Search(users, JsText.Lower(term)) == Search(users, term)
  {
    JsText.LowerTwice(term);
    FilterSame(users, MatchesTerm(JsText.Lower(term)), MatchesTerm(term));
  }

  /** Searching for a user's full id lists that user. */
  lemma SearchFindsById(users: seq<UserWithRole>, i: int)
    requires 0 <= i < |users|
    ensures users[i] in Search(users, users[i].id)
  {
    JsText.ContainsSelf(JsText.Lower(users[i].id));
    SearchMembership(users, users[i].id, users[i]);
  }

  // ---------------------------------------------------------------------------
  // Badge and ban toggle

  /** `getRoleBadgeVariant`. */
  function BadgeVariant(r: Role): (v: string)
    ensures v == "destructive" <==> r == Admin
    ensures v == "default" <==> r == Vendor
    ensures v == "secondary" <==> r == Client
  {
    match r
    case Admin => "destructive"
    case Vendor => "default"
    case Client => "secondary"
  }

  /** `handleToggleBan` passes `active: !user.active`, and the mutation sends
      `ban: !active`. */
  function ToggleBanRequest(u: UserWithRole): BanUser.BanRequest {
    var active := !u.active;
    BanUser.BanRequest(Some(u.id), !active)
  }

  /** The toggle bans an active user and unbans a banned one: when the
      handler succeeds, the target's profile ends with the opposite status. */
  lemma ToggleBanFlips(u: UserWithRole, t: BanUser.Tables, call: BanUser.BanCall)
    requires call.body == Some(ToggleBanRequest(u))
    requires BanUser.BanSpec(t, call).status == 200
    requires u.id in t.profiles && t.profiles[u.id].active == u.active
    ensures BanUser.BanSpec(t, call).tables.profiles[u.id].active == !u.active
    ensures call.body.value.ban == u.active
  {
  }

  /** The toast the toggle shows on success, as written: it reads the
      mutation's `active` variable, which holds `!user.active`. */
  function ToggleToastAsWritten(u: UserWithRole): string {
    var active := !u.active;
    if active then "Utilisateur banni" else "Utilisateur débanni"
  }

  /** Banning an active user announces an unban. */
  lemma ToggleToastInverted(u: UserWithRole)
    requires u.active
    ensures ToggleBanRequest(u).ban
    ensures ToggleToastAsWritten(u) == "Utilisateur débanni"
  {
  }

  /** The toast that names what the toggle did. */
  function ToggleToast(u: UserWithRole): (text: string)
    ensures text == BanUser.ActionMessage(ToggleBanRequest(u).ban)
    ensures text == "Utilisateur banni" <==> u.active
  {
    if ToggleBanRequest(u).ban then "Utilisateur banni" else "Utilisateur débanni"
  }

  // ---------------------------------------------------------------------------
  // Role and profile writes

  /** The tables the dialog writes: profiles (with the `role` column kept
      apart) and the role rows. */
  datatype Tables = Tables(profiles: map<string, Profile>, profileRoles: map<string, Role>,
                           roleRows: seq<AuthContext.RoleRow>)

  /** The answers of the three writes of a role update: the delete's error is
      ignored, the insert's is raised, the profile update's is ignored. */
  datatype RoleWrite = RoleWrite(deleteFails: bool, insertError: Option<string>, profileUpdateFails: bool)

  predicate NotOfUser(userId: string, row: AuthContext.RoleRow) {
    row.userId != userId
  }

  function OtherUsers(userId: string): AuthContext.RoleRow -> bool {
    row => NotOfUser(userId, row)
  }

  /** The role rows of everyone but `userId`. */
  function RowsOfOthers(rows: seq<AuthContext.RoleRow>, userId: string): seq<AuthContext.RoleRow> {
    Filter(rows, OtherUsers(userId))
  }

  datatype RoleUpdated = RoleUpdated(error: Option<string>, tables: Tables)

  /** `updateRoleMutation`: delete the user's role rows, insert the new one,
      then mirror it into the profile. */
  function UpdateRoleSpec(t: Tables, userId: string, role: Role, w: RoleWrite): RoleUpdated {
    var rows := if w.deleteFails then t.roleRows else RowsOfOthers(t.roleRows, userId);
    if w.insertError.Some? then RoleUpdated(w.insertError, t.(roleRows := rows))
    else
      var profileRoles := if w.profileUpdateFails || userId !in t.profileRoles then t.profileRoles
                          else t.profileRoles[userId := role];
      RoleUpdated(None, Tables(t.profiles, profileRoles, rows + [AuthContext.RoleRow(userId, role)]))
  }

  /** After a role update whose writes succeed, the user has exactly one role
      row, holding the new role; the other users' rows are those they had, in
      the same order; and the context's role lookup finds the new role. */
  lemma UpdateRoleSingleRow(t: Tables, userId: string, role: Role, w: RoleWrite)
    requires !w.deleteFails && w.insertError.None?
    ensures var rows := UpdateRoleSpec(t, userId, role, w).tables.roleRows;
      && |rows| >= 1 && rows[|rows| - 1] == AuthContext.RoleRow(userId, role)
      && (forall i | 0 <= i < |rows| - 1 :: rows[i].userId != userId)
      && RowsOfOthers(rows, userId) == RowsOfOthers(t.roleRows, userId)
      && AuthContext.FetchRole(rows, userId, false) == role
  {
    var kept := RowsOfOthers(t.roleRows, userId);
    var rows := kept + [AuthContext.RoleRow(userId, role)];
    assert UpdateRoleSpec(t, userId, role, w).tables.roleRows == rows;
    forall i | 0 <= i < |rows| - 1 ensures rows[i].userId != userId {
      assert rows[i] == kept[i];
      assert OtherUsers(userId)(kept[i]);
    }
    FilterAppend(kept, [AuthContext.RoleRow(userId, role)], OtherUsers(userId));
    FilterKeepsNone([AuthContext.RoleRow(userId, role)], OtherUsers(userId));
    FilterTwice(t.roleRows, OtherUsers(userId));
    assert kept + [] == kept;
    assert rows[|rows| - 1].userId == userId;
    AuthContext.FetchRoleSingleRow(rows, userId, role);
  }

  /** A failed insert leaves no row for the user (the delete went through)
      and reports the error. */
  lemma UpdateRoleInsertFails(t: Tables, userId: string, role: Role, w: RoleWrite)
    requires !w.deleteFails && w.insertError.Some?
    ensures var r := UpdateRoleSpec(t, userId, role, w);
      r.error == w.insertError && !AuthContext.HasRoleRow(r.tables.roleRows, userId)
      && r.tables.profiles == t.profiles && r.tables.profileRoles == t.profileRoles
  {
    var rows := RowsOfOthers(t.roleRows, userId);
    forall i | 0 <= i < |rows| ensures rows[i].userId != userId {
      assert OtherUsers(userId)(rows[i]);
    }
  }

  // ---------------------------------------------------------------------------
  // The edit dialog

  datatype Toast = ErrorToast(text: string) | SuccessToast(text: string)

  /** The dialog: the user being edited, the edited name and role, and
      whether it is open. */
  datatype Editor = Editor(editing: Option<UserWithRole>, username: string, role: Role, dialogOpen: bool)

  /** The answers of the profile update and of the role update. */
  datatype SaveEnv = SaveEnv(profileError: Option<string>, roleWrite: RoleWrite)

  datatype Saved = Saved(toasts: seq<Toast>, roleRequested: bool, editor: Editor, tables: Tables)

  /** `updateProfileMutation`: the edited name, and the `active` flag as the
      list showed it when the dialog opened. */
  function UpdateProfile(t: Tables, u: UserWithRole, username: string): Tables {
    if u.id in t.profiles then t.(profiles := t.profiles[u.id := t.profiles[u.id].(username := username, active := u.active)])
    else t
  }

  /** `handleSave`: the profile update, then the role update only if the role
      changed; a failed write stops the handler with the dialog still open. */
  function SaveSpec(e: Editor, t: Tables, env: SaveEnv): Saved {
    if e.editing.None? then Saved([], false, e, t)
    else
      var u := e.editing.value;
      if env.profileError.Some? then Saved([ErrorToast("Erreur: " + env.profileError.value)], false, e, t)
      else
        var t1 := UpdateProfile(t, u, e.username);
        var closed := e.(dialogOpen := false, editing := None);
        if e.role == u.role then Saved([SuccessToast("Profil mis à jour")], false, closed, t1)
        else
          var r := UpdateRoleSpec(t1, u.id, e.role, env.roleWrite);
          if r.error.Some? then
            Saved([SuccessToast("Profil mis à jour"), ErrorToast("Erreur: " + r.error.value)], true, e, r.tables)
          else Saved([SuccessToast("Profil mis à jour"), SuccessToast("Rôle mis à jour")], true, closed, r.tables)
  }

  /** The role update is requested iff a user is being edited, the profile
      update succeeded and the role was changed; without it the role rows and
      the profiles' roles stay as they were. */
  lemma SaveRoleOnlyWhenChanged(e: Editor, t: Tables, env: SaveEnv)
    ensures var s := SaveSpec(e, t, env);
      && (s.roleRequested <==> e.editing.Some? && env.profileError.None? && e.role != e.editing.value.role)
      && (!s.roleRequested ==> s.tables.roleRows == t.roleRows && s.tables.profileRoles == t.profileRoles)
  {
  }

  /** The dialog closes iff every write it issued succeeded; a successful
      save gives the edited user the edited name and keeps the `active` flag
      the list showed. */
  lemma SaveClosesOnSuccess(e: Editor, t: Tables, env: SaveEnv)
    requires e.editing.Some?
    ensures var s := SaveSpec(e, t, env);
      var u := e.editing.value;
      && (!s.editor.dialogOpen && s.editor.editing.None? <==>
            env.profileError.None? && (e.role == u.role || env.roleWrite.insertError.None?))
      && (env.profileError.None? && u.id in t.profiles ==>
            s.tables.profiles[u.id] == t.profiles[u.id].(username := e.username, active := u.active))
  {
  }

  class UsersPage {
    var editing: Option<UserWithRole>
    var editUsername: string
    var editRole: Role
    var dialogOpen: bool
    var profiles: map<string, Profile>
    var profileRoles: map<string, Role>
    var roleRows: seq<AuthContext.RoleRow>

    function EditorState(): Editor
      reads this
    {
      Editor(editing, editUsername, editRole, dialogOpen)
    }

    function State(): Tables
      reads this
    {
      Tables(profiles, profileRoles, roleRows)
    }

    constructor (t: Tables)
      ensures EditorState() == Editor(None, "", Client, false) && State() == t
    {
      editing, editUsername, editRole, dialogOpen := None, "", Client, false;
      profiles, profileRoles, roleRows := t.profiles, t.profileRoles, t.roleRows;
    }

    /** `handleEdit`: open the dialog on a user's name and role. */
    method HandleEdit(u: UserWithRole)
      modifies this
      ensures EditorState() == Editor(Some(u), u.username, u.role, true)
      ensures State() == old(State())
    {
      editing := Some(u);
      editUsername := u.username;
      editRole := u.role;
      dialogOpen := true;
    }

    method UpdateRole(userId: string, role: Role, w: RoleWrite) returns (error: Option<string>)
      modifies this
      ensures RoleUpdated(error, State()) == UpdateRoleSpec(old(State()), userId, role, w)
      ensures EditorState() == old(EditorState())
    {
      if !w.deleteFails {
        roleRows := RowsOfOthers(roleRows, userId);
      }
      if w.insertError.Some? {
        return w.insertError;
      }
      roleRows := roleRows + [AuthContext.RoleRow(userId, role)];
      if !w.profileUpdateFails && userId in profileRoles {
        profileRoles := profileRoles[userId := role];
      }
      error := None;
    }

    method HandleSave(env: SaveEnv) returns (toasts: seq<Toast>, roleRequested: bool)
      modifies this
      ensures Saved(toasts, roleRequested, EditorState(), State()) == SaveSpec(old(EditorState()), old(State()), env)
    {
      if editing.None? {
        return [], false;
      }
      var u := editing.value;
      if env.profileError.Some? {
        return [ErrorToast("Erreur: " + env.profileError.value)], false;
      }
      if u.id in profiles {
        profiles := profiles[u.id := profiles[u.id].(username := editUsername, active := u.active)];
      }
      toasts := [SuccessToast("Profil mis à jour")];
      roleRequested := false;
      if editRole != u.role {
        roleRequested := true;
        var error := UpdateRole(u.id, editRole, env.roleWrite);
        if error.Some? {
          return toasts + [ErrorToast("Erreur: " + error.value)], true;
        }
        toasts := toasts + [SuccessToast("Rôle mis à jour")];
      }
      dialogOpen := false;
      editing := None;
    }
  }
}
