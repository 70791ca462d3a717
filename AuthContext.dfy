/** The authentication context of the web client (src/lib/auth.tsx): the role
    lookup, the active and ban checks, `signIn` with its login bookkeeping, the
    auth-state listener, the initial session check and `signOut`.

    The authentication service, the IP lookup and the ban tables are inputs:
    the password check is an outcome, the client IP an optional string, the
    banned e-mails and IPs two sets. */
module AuthContext {
  import opened Wrappers
  import opened Schema

  /** The part of an authenticated user (and of its session) the context reads. */
  datatype AuthUser = AuthUser(id: string, email: Option<string>)

  /** A row of `user_roles`. */
  datatype RoleRow = RoleRow(userId: string, role: Role)

  const BannedAccountMessage: string := "Ce compte a été banni. Accès refusé."
  const BannedIpMessage: string := "Votre adresse IP a été bannie. Accès refusé."

  // ---------------------------------------------------------------------------
  // Lookups

  predicate HasRoleRow(rows: seq<RoleRow>, userId: string) {
    exists i | 0 <= i < |rows| :: rows[i].userId == userId
  }

  /** The user's role of lowest rank in the enum's order, if any. */
  function LowestRole(rows: seq<RoleRow>, userId: string): (r: Option<Role>)
    ensures r.None? <==> !HasRoleRow(rows, userId)
    ensures r.Some? ==> exists i | 0 <= i < |rows| :: rows[i].userId == userId && rows[i].role == r.value
    ensures r.Some? ==> forall i | 0 <= i < |rows| && rows[i].userId == userId :: RoleRank(r.value) <= RoleRank(rows[i].role)
  {
    if rows == [] then None
    else
      var rest := LowestRole(rows[1..], userId);
      assert forall i | 1 <= i < |rows| :: rows[i] == rows[1..][i - 1];
      if rows[0].userId != userId then rest
      else if rest.Some? && RoleRank(rest.value) < RoleRank(rows[0].role) then rest
      else Some(rows[0].role)
  }

  /** `fetchRole`: the first role row in the enum column's order (client,
      vendor, admin), or client when the lookup fails or finds no row. */
  function FetchRole(rows: seq<RoleRow>, userId: string, lookupFails: bool): (r: Role)
    ensures lookupFails || !HasRoleRow(rows, userId) ==> r == Client
    ensures !lookupFails && HasRoleRow(rows, userId) ==>
      (exists i | 0 <= i < |rows| :: rows[i].userId == userId && rows[i].role == r)
      && forall i | 0 <= i < |rows| && rows[i].userId == userId :: RoleRank(r) <= RoleRank(rows[i].role)
  {
    if lookupFails then Client else LowestRole(rows, userId).GetOr(Client)
  }

  /** A user holding a single role row gets that role. */
  lemma FetchRoleSingleRow(rows: seq<RoleRow>, userId: string, role: Role)
    requires forall i | 0 <= i < |rows| && rows[i].userId == userId :: rows[i].role == role
    requires HasRoleRow(rows, userId)
    ensures FetchRole(rows, userId, false) == role
  {
  }

  /** `checkUserActive`: active unless the profile read answers `active ==
      false`. A read that fails answers no data, and a missing profile makes
      `single()` fail, so both count as active. */
  function CheckUserActive(profiles: map<string, Profile>, userId: string, readFails: bool): (active: bool)
    ensures !active <==> !readFails && userId in profiles && !profiles[userId].active
  {
    readFails || userId !in profiles || profiles[userId].active
  }

  /** `checkBannedIP`: the empty string is never banned. */
  function CheckBannedIp(bannedIps: set<string>, ip: string): (banned: bool)
    ensures banned <==> ip != "" && ip in bannedIps
  {
    if ip == "" then false else ip in bannedIps
  }

  /** The IP check as the callers run it: only when an address was obtained. */
  function IpBanned(bannedIps: set<string>, clientIp: Option<string>): (banned: bool)
    ensures banned ==> Present(clientIp) && clientIp.value in bannedIps
  {
    Present(clientIp) && CheckBannedIp(bannedIps, clientIp.value)
  }

  /** What the ban tables, the IP lookup and the role lookup answer;
      `activeReadFails` is the profile read of `checkUserActive` failing. */
  datatype Environment = Environment(
    activeReadFails: bool,
    clientIp: Option<string>,
    bannedEmails: set<string>,
    bannedIps: set<string>,
    roleRows: seq<RoleRow>,
    roleLookupFails: bool)

  datatype Verdict = Inactive | Banned | Admitted

  /** The gate shared by the listener and the initial session check: the
      active flag first, then the e-mail (an absent one is looked up as "")
      and the IP. */
  function Admit(profiles: map<string, Profile>, u: AuthUser, env: Environment): Verdict {
    if !CheckUserActive(profiles, u.id, env.activeReadFails) then Inactive
    else if u.email.GetOr("") in env.bannedEmails || IpBanned(env.bannedIps, env.clientIp) then Banned
    else Admitted
  }

  // ---------------------------------------------------------------------------
  // signIn

  /** The password check's answer: an error message, or the signed-in user. */
  datatype PasswordOutcome = Rejected(message: string) | Accepted(user: Option<AuthUser>)

  /** The answers of the services `signIn` calls after the ban checks.
      `countReadFails` is the separate read of the login count failing (the
      `single()` lookup answering an error, so the read value is `null`). */
  datatype SignInEnv = SignInEnv(now: int, env: Environment, password: PasswordOutcome,
                                 countReadFails: bool, profileUpdateFails: bool, logFails: bool)

  /** The server side of the context: the tables it writes and the session the
      authentication client holds. */
  datatype Backend = Backend(profiles: map<string, Profile>, logs: seq<LogEntry>, authSession: Option<AuthUser>)

  datatype SignInResult = SignInResult(error: Option<string>, backend: Backend)

  /** `profileData?.login_count || 0`: the stored count, or 0 when the read
      failed or found no row. */
  function ReadLoginCount(profiles: map<string, Profile>, userId: string, readFails: bool): int {
    if readFails || userId !in profiles then 0 else profiles[userId].loginCount
  }

  /** The login bookkeeping on the user's profile: the count written is the
      one read plus one; an update of a missing row changes nothing. */
  function RecordLogin(profiles: map<string, Profile>, userId: string, now: int, ip: Option<string>, previous: int): map<string, Profile> {
    if userId in profiles then
      var p := profiles[userId];
      profiles[userId := p.(lastLogin := Some(now), loginCount := previous + 1, ipLastLogin := ip)]
    else profiles
  }

  function LoginEntry(userId: string): LogEntry {
    LogEntry(Some(userId), "login", "Connexion réussie")
  }

  /** `signIn`, gate by gate. */
  function SignInSpec(b: Backend, email: string, e: SignInEnv): SignInResult {
    if email in e.env.bannedEmails then SignInResult(Some(BannedAccountMessage), b)
    else if IpBanned(e.env.bannedIps, e.env.clientIp) then SignInResult(Some(BannedIpMessage), b)
    else match e.password
      case Rejected(m) => SignInResult(Some(m), b)
      case Accepted(None) => SignInResult(None, b)
      case Accepted(Some(u)) =>
        if !CheckUserActive(b.profiles, u.id, e.env.activeReadFails) then SignInResult(Some(BannedAccountMessage), b.(authSession := None))
        else
          var previous := ReadLoginCount(b.profiles, u.id, e.countReadFails);
          var profiles := if e.profileUpdateFails then b.profiles else RecordLogin(b.profiles, u.id, e.now, e.env.clientIp, previous);
          var logs := if e.logFails then b.logs else b.logs + [LoginEntry(u.id)];
          SignInResult(None, Backend(profiles, logs, Some(u)))
  }

  // ---------------------------------------------------------------------------
  // The provider's state

  class AuthProvider {
    // React state
    var user: Option<AuthUser>
    var session: Option<AuthUser>
    var role: Option<Role>
    var loading: bool
    // what the context writes on the server
    var profiles: map<string, Profile>
    var logs: seq<LogEntry>
    var authSession: Option<AuthUser>

    function Server(): Backend
      reads this
    {
      Backend(profiles, logs, authSession)
    }

    constructor (server: Backend)
      ensures user.None? && session.None? && role.None? && loading
      ensures Server() == server
    {
      user, session, role, loading := None, None, None, true;
      profiles, logs, authSession := server.profiles, server.logs, server.authSession;
    }

    method SignIn(email: string, e: SignInEnv) returns (error: Option<string>)
      modifies this
      ensures SignInResult(error, Server()) == SignInSpec(old(Server()), email, e)
      ensures user == old(user) && session == old(session) && role == old(role) && loading == old(loading)
    {
      if email in e.env.bannedEmails {
        return Some(BannedAccountMessage);
      }
      var clientIp := e.env.clientIp;
      if Present(clientIp) {
        var ipBanned := CheckBannedIp(e.env.bannedIps, clientIp.value);
        if ipBanned {
          return Some(BannedIpMessage);
        }
      }
      if e.password.Rejected? {
        return Some(e.password.message);
      }
      if e.password.user.Some? {
        var u := e.password.user.value;
        authSession := Some(u);
        if !CheckUserActive(profiles, u.id, e.env.activeReadFails) {
          authSession := None;
          return Some(BannedAccountMessage);
        }
        var previous := 0;
        if !e.countReadFails && u.id in profiles {
          previous := profiles[u.id].loginCount;
        }
        if !e.profileUpdateFails && u.id in profiles {
          var p := profiles[u.id];
          profiles := profiles[u.id := p.(lastLogin := Some(e.now), loginCount := previous + 1, ipLastLogin := clientIp)];
        }
        if !e.logFails {
          logs := logs + [LoginEntry(u.id)];
        }
      }
      return None;
    }

    /** The auth-state listener, called with the event's session. The early
        returns for an inactive or banned user do not touch `loading`. The
        role lookup, deferred by the source with a zero timeout, is applied
        at once. */
    method OnAuthStateChange(s: Option<AuthUser>, env: Environment)
      modifies this
      ensures profiles == old(profiles) && logs == old(logs)
      ensures s.None? ==>
        user.None? && session.None? && role.None? && !loading && authSession == old(authSession)
      ensures s.Some? && Admit(profiles, s.value, env) != Admitted ==>
        user.None? && session.None? && role.None? && authSession.None? && loading == old(loading)
      ensures s.Some? && Admit(profiles, s.value, env) == Admitted ==>
        && user == s && session == s && !loading && authSession == old(authSession)
        && role == Some(FetchRole(env.roleRows, s.value.id, env.roleLookupFails))
    {
      session := s;
      user := s;
      if s.Some? {
        var u := s.value;
        var isActive := CheckUserActive(profiles, u.id, env.activeReadFails);
        if !isActive {
          authSession := None;
          user, session, role := None, None, None;
          return;
        }
        var emailBanned := u.email.GetOr("") in env.bannedEmails;
        var ipBanned := if Present(env.clientIp) then CheckBannedIp(env.bannedIps, env.clientIp.value) else false;
        if emailBanned || ipBanned {
          authSession := None;
          user, session, role := None, None, None;
          return;
        }
        role := Some(FetchRole(env.roleRows, u.id, env.roleLookupFails));
      } else {
        role := None;
      }
      loading := false;
    }

    /** The initial `getSession` check: a refused user is signed out on the
        server, but the React state is left as it was. */
    method RestoreSession(s: Option<AuthUser>, env: Environment)
      modifies this
      ensures profiles == old(profiles) && logs == old(logs) && !loading
      ensures s.None? ==> user == old(user) && session == old(session) && role == old(role) && authSession == old(authSession)
      ensures s.Some? && Admit(profiles, s.value, env) != Admitted ==>
        user == old(user) && session == old(session) && role == old(role) && authSession.None?
      ensures s.Some? && Admit(profiles, s.value, env) == Admitted ==>
        && user == s && session == s && authSession == old(authSession)
        && role == Some(FetchRole(env.roleRows, s.value.id, env.roleLookupFails))
    {
      if s.Some? {
        var u := s.value;
        var isActive := CheckUserActive(profiles, u.id, env.activeReadFails);
        if !isActive {
          authSession := None;
          loading := false;
          return;
        }
        var emailBanned := u.email.GetOr("") in env.bannedEmails;
        var ipBanned := if Present(env.clientIp) then CheckBannedIp(env.bannedIps, env.clientIp.value) else false;
        if emailBanned || ipBanned {
          authSession := None;
          loading := false;
          return;
        }
        session := s;
        user := s;
        role := Some(FetchRole(env.roleRows, u.id, env.roleLookupFails));
      }
      loading := false;
    }

    /** `signOut`: the logout entry is best effort; the role is reset whatever
        happens to it. */
    method SignOut(logFails: bool)
      modifies this
      ensures role.None? && authSession.None?
      ensures user == old(user) && session == old(session) && loading == old(loading) && profiles == old(profiles)
      ensures logs == if old(user).Some? && !logFails
                      then old(logs) + [LogEntry(Some(old(user).value.id), "logout", "Déconnexion")]
                      else old(logs)
    {
      if user.Some? && !logFails {
        logs := logs + [LogEntry(Some(user.value.id), "logout", "Déconnexion")];
      }
      authSession := None;
      role := None;
    }
  }

  // ---------------------------------------------------------------------------
  // Properties of signIn

  /** A banned e-mail is refused before the IP is looked up or a password
      sign-in is attempted: the answer does not depend on either, and nothing
      changes. */
  lemma BannedEmailFirst(b: Backend, email: string, e: SignInEnv, ip: Option<string>, pw: PasswordOutcome)
    requires email in e.env.bannedEmails
    ensures SignInSpec(b, email, e) == SignInResult(Some(BannedAccountMessage), b)
    ensures SignInSpec(b, email, e) == SignInSpec(b, email, e.(password := pw, env := e.env.(clientIp := ip)))
  {
  }

  /** The IP check fails open: with no address, or an empty one, the banned
      IPs play no part. */
  lemma UnknownIpSkipsCheck(b: Backend, email: string, e: SignInEnv, ips: set<string>)
    requires !Present(e.env.clientIp)
    ensures SignInSpec(b, email, e) == SignInSpec(b, email, e.(env := e.env.(bannedIps := ips)))
  {
  }

  /** A banned IP is refused before the password check, and nothing changes. */
  lemma BannedIpBeforePassword(b: Backend, email: string, e: SignInEnv, pw: PasswordOutcome)
    requires email !in e.env.bannedEmails
    requires Present(e.env.clientIp) && e.env.clientIp.value in e.env.bannedIps
    ensures SignInSpec(b, email, e) == SignInResult(Some(BannedIpMessage), b)
    ensures SignInSpec(b, email, e.(password := pw)) == SignInSpec(b, email, e)
  {
  }

  /** An inactive user who passes the password check is signed out again and
      told the account is banned, with no profile or log written, when the
      active read works; when it fails the check lets the user in, and the
      sign-in succeeds with the profile still inactive. */
  lemma InactiveUserSignedOut(b: Backend, email: string, e: SignInEnv, u: AuthUser)
    requires email !in e.env.bannedEmails && !IpBanned(e.env.bannedIps, e.env.clientIp)
    requires e.password == Accepted(Some(u)) && u.id in b.profiles && !b.profiles[u.id].active
    ensures !e.env.activeReadFails ==>
      SignInSpec(b, email, e) == SignInResult(Some(BannedAccountMessage), b.(authSession := None))
    ensures e.env.activeReadFails ==>
      var r := SignInSpec(b, email, e);
      && r.error.None? && r.backend.authSession == Some(u)
      && r.backend.profiles.Keys == b.profiles.Keys && !r.backend.profiles[u.id].active
  {
  }

  /** A successful sign-in adds one to the login count it read, or sets it to
      1 when that read failed; it records the time and the IP, appends a
      `login` entry and holds the user's session. */
  lemma LoginBookkeeping(b: Backend, email: string, e: SignInEnv, u: AuthUser)
    requires email !in e.env.bannedEmails && !IpBanned(e.env.bannedIps, e.env.clientIp)
    requires e.password == Accepted(Some(u)) && u.id in b.profiles && b.profiles[u.id].active
    requires !e.profileUpdateFails && !e.logFails
    ensures var r := SignInSpec(b, email, e);
      && r.error.None?
      && r.backend.authSession == Some(u)
      && r.backend.profiles.Keys == b.profiles.Keys
      && (!e.countReadFails ==> r.backend.profiles[u.id].loginCount == b.profiles[u.id].loginCount + 1)
      && (e.countReadFails ==> r.backend.profiles[u.id].loginCount == 1)
      && r.backend.profiles[u.id].lastLogin == Some(e.now)
      && r.backend.profiles[u.id].ipLastLogin == e.env.clientIp
      && r.backend.profiles[u.id].active
      && (forall id | id in b.profiles && id != u.id :: r.backend.profiles[id] == b.profiles[id])
      && r.backend.logs == b.logs + [LogEntry(Some(u.id), "login", "Connexion réussie")]
  {
  }

  /** signIn fails exactly on a banned e-mail, a banned known IP, a rejected
      password or an inactive account; a failure writes no table. */
  lemma SignInFailures(b: Backend, email: string, e: SignInEnv)
    ensures var r := SignInSpec(b, email, e);
      && (r.error.Some? <==>
            || email in e.env.bannedEmails
            || IpBanned(e.env.bannedIps, e.env.clientIp)
            || e.password.Rejected?
            || (e.password.user.Some? && !CheckUserActive(b.profiles, e.password.user.value.id, e.env.activeReadFails)))
      && (r.error.Some? ==> r.backend.profiles == b.profiles && r.backend.logs == b.logs)
  {
  }

  // ---------------------------------------------------------------------------
  // Properties of the shared gate

  /** An inactive account whose profile read works is refused whatever the
      ban tables say; a missing profile or a failed read never makes a user
      inactive; an empty or unknown IP never bans. */
  lemma AdmitGateOrder(profiles: map<string, Profile>, u: AuthUser, env: Environment)
    ensures u.id !in profiles || env.activeReadFails ==> Admit(profiles, u, env) != Inactive
    ensures u.id in profiles && !profiles[u.id].active && !env.activeReadFails ==> Admit(profiles, u, env) == Inactive
    ensures Admit(profiles, u, env) == Admitted <==>
      CheckUserActive(profiles, u.id, env.activeReadFails) && u.email.GetOr("") !in env.bannedEmails
      && !(Present(env.clientIp) && env.clientIp.value in env.bannedIps)
  {
  }
}
