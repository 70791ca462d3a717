/** The `ban-user` serverless handler (supabase/functions/ban-user/index.ts):
    an ordered chain of authorisation checks, then updates of `profiles.active`,
    the `banned_emails` set and the `logs` table.

    The services the handler calls (token check, `has_role`, the account lookup)
    and the outcome of each table write are inputs of the call. */
module BanUser {
  import opened Wrappers
  import opened Schema

  /** The JSON body; `None` in `BanCall.body` stands for a body that does not parse. */
  datatype BanRequest = BanRequest(userId: Option<string>, ban: bool)

  /** The request and what the handler's service calls answer. */
  datatype BanCall = BanCall(
    authHeader: Option<string>,
    caller: Option<string>,          // the user the bearer token resolves to; None on an auth error
    callerIsAdmin: Option<bool>,     // the `has_role(caller, 'admin')` answer; None on an RPC error
    body: Option<BanRequest>,
    accounts: map<string, string>,   // auth users: id to e-mail ("" when the account has none)
    lookupFails: bool,
    profileUpdateFails: bool,
    banInsertFails: bool,            // an insert error other than the duplicate-key one
    unbanDeleteFails: bool,
    logFails: bool)

  /** The three tables the handler writes. */
  datatype Tables = Tables(profiles: map<string, Profile>, bannedEmails: set<string>, logs: seq<LogEntry>)

  datatype BanResult = BanResult(status: int, tables: Tables)

  function ActionType(ban: bool): string {
    if ban then "user_banned" else "user_unbanned"
  }

  function ActionMessage(ban: bool): string {
    if ban then "Utilisateur banni" else "Utilisateur débanni"
  }

  /** The caller is an authenticated admin. */
  predicate Authorised(call: BanCall) {
    Present(call.authHeader) && call.caller.Some? && call.callerIsAdmin == Some(true)
  }

  /** The target account exists and has an e-mail. */
  predicate TargetKnown(call: BanCall, userId: string) {
    !call.lookupFails && userId in call.accounts && call.accounts[userId] != ""
  }

  /** `profiles.update({active: !ban}).eq("id", userId)`: no row, no change. */
  function SetActive(profiles: map<string, Profile>, userId: string, active: bool): map<string, Profile> {
    if userId in profiles then profiles[userId := profiles[userId].(active := active)] else profiles
  }

  /** The `banned_emails` step: insert (a duplicate leaves the set as it is) or delete. */
  function UpdateBanned(banned: set<string>, email: string, call: BanCall, ban: bool): set<string> {
    if ban then (if call.banInsertFails then banned else banned + {email})
    else (if call.unbanDeleteFails then banned else banned - {email})
  }

  function AppendLog(logs: seq<LogEntry>, call: BanCall, userId: string, ban: bool): seq<LogEntry> {
    if call.logFails then logs else logs + [LogEntry(Some(userId), ActionType(ban), ActionMessage(ban))]
  }

  /** The handler's effect, check by check. */
  function BanSpec(t: Tables, call: BanCall): BanResult {
    if !Present(call.authHeader) || call.caller.None? then BanResult(401, t)
    else if call.callerIsAdmin != Some(true) then BanResult(403, t)
    else if call.body.None? then BanResult(500, t)
    else
      var req := call.body.value;
      if !Present(req.userId) then BanResult(400, t)
      else
        var userId := req.userId.value;
        if !TargetKnown(call, userId) then BanResult(404, t)
        else if call.profileUpdateFails then BanResult(500, t)
        else
          var email := call.accounts[userId];
          BanResult(200, Tables(SetActive(t.profiles, userId, !req.ban),
                                UpdateBanned(t.bannedEmails, email, call, req.ban),
                                AppendLog(t.logs, call, userId, req.ban)))
  }

  /** The handler run against the tables it writes. */
  class BanTables {
    var profiles: map<string, Profile>
    var bannedEmails: set<string>
    var logs: seq<LogEntry>

    function State(): Tables
      reads this
    {
      Tables(profiles, bannedEmails, logs)
    }

    constructor (profiles: map<string, Profile>, bannedEmails: set<string>, logs: seq<LogEntry>)
      ensures State() == Tables(profiles, bannedEmails, logs)
    {
      this.profiles := profiles;
      this.bannedEmails := bannedEmails;
      this.logs := logs;
    }

    method Handle(call: BanCall) returns (status: int)
      modifies this
      ensures BanResult(status, State()) == BanSpec(old(State()), call)
    {
      if !Present(call.authHeader) {
        return 401;
      }
      if call.caller.None? {
        return 401;
      }
      if call.callerIsAdmin != Some(true) {
        return 403;
      }
      if call.body.None? {
        // `req.json()` throws; the catch-all answers 500
        return 500;
      }
      var req := call.body.value;
      if !Present(req.userId) {
        return 400;
      }
      var userId := req.userId.value;
      if call.lookupFails || userId !in call.accounts || call.accounts[userId] == "" {
        return 404;
      }
      var email := call.accounts[userId];
      if call.profileUpdateFails {
        return 500;
      }
      if userId in profiles {
        profiles := profiles[userId := profiles[userId].(active := !req.ban)];
      }
      if req.ban {
        if !call.banInsertFails {
          bannedEmails := bannedEmails + {email};
        }
      } else if !call.unbanDeleteFails {
        bannedEmails := bannedEmails - {email};
      }
      if !call.logFails {
        logs := logs + [LogEntry(Some(userId), ActionType(req.ban), ActionMessage(req.ban))];
      }
      return 200;
    }
  }

  // ---------------------------------------------------------------------------
  // Properties

  /** Which check answers which status; every answer but 200 leaves all three
      tables untouched. */
  lemma BanStatusCodes(t: Tables, call: BanCall)
    ensures var r := BanSpec(t, call);
      && (r.status == 401 <==> !Present(call.authHeader) || call.caller.None?)
      && (r.status == 403 <==> Present(call.authHeader) && call.caller.Some? && call.callerIsAdmin != Some(true))
      && (r.status == 400 <==> Authorised(call) && call.body.Some? && !Present(call.body.value.userId))
      && (r.status == 404 <==> Authorised(call) && call.body.Some? && Present(call.body.value.userId)
                                && !TargetKnown(call, call.body.value.userId.value))
      && (r.status == 200 <==> Authorised(call) && call.body.Some? && Present(call.body.value.userId)
                                && TargetKnown(call, call.body.value.userId.value) && !call.profileUpdateFails)
      && (r.status != 200 ==> r.tables == t)
  {
  }

  /** The token and admin checks run before the body is looked at: a caller
      who fails them gets the same answer whatever the body says. */
  lemma AuthorisationBeforeBody(t: Tables, call: BanCall, other: Option<BanRequest>)
    requires !Authorised(call)
    ensures BanSpec(t, call) == BanSpec(t, call.(body := other))
    ensures BanSpec(t, call).status in {401, 403}
  {
  }

  /** On success the target's profile gets `active == !ban`, no other profile
      changes, and exactly one log entry is appended for the target (unless
      the log insert fails, which is ignored). */
  lemma BanSuccess(t: Tables, call: BanCall)
    requires BanSpec(t, call).status == 200
    ensures Authorised(call) && call.body.Some? && Present(call.body.value.userId)
    ensures var userId := call.body.value.userId.value;
      var ban := call.body.value.ban;
      var t' := BanSpec(t, call).tables;
      && t'.profiles.Keys == t.profiles.Keys
      && (userId in t.profiles ==> t'.profiles[userId] == t.profiles[userId].(active := !ban))
      && (forall id | id in t.profiles && id != userId :: t'.profiles[id] == t.profiles[id])
      && (!call.logFails ==> t'.logs == t.logs + [LogEntry(Some(userId), ActionType(ban), ActionMessage(ban))])
      && (call.logFails ==> t'.logs == t.logs)
  {
  }

  /** Banning puts the target's e-mail into the set and unbanning takes every
      copy of it out; nothing else in the set changes. */
  lemma BannedEmailsEffect(t: Tables, call: BanCall)
    requires BanSpec(t, call).status == 200
    ensures call.body.Some? && Present(call.body.value.userId)
    ensures var email := call.accounts[call.body.value.userId.value];
      var b := BanSpec(t, call).tables.bannedEmails;
      && (call.body.value.ban && !call.banInsertFails ==> b == t.bannedEmails + {email} && email in b)
      && (!call.body.value.ban && !call.unbanDeleteFails ==> b == t.bannedEmails - {email} && email !in b)
      && (forall e | e != email :: e in b <==> e in t.bannedEmails)
  {
  }

  /** Banning twice is the same as banning once, for the profile and the
      banned set (the second insert hits the duplicate key and is ignored);
      only the log grows. */
  lemma BanIdempotent(t: Tables, call: BanCall)
    requires BanSpec(t, call).status == 200 && call.body.value.ban
    ensures var once := BanSpec(t, call).tables;
      var twice := BanSpec(once, call).tables;
      twice.profiles == once.profiles && twice.bannedEmails == once.bannedEmails
  {
    var userId := call.body.value.userId.value;
    var once := BanSpec(t, call).tables;
    if userId in t.profiles {
      assert once.profiles[userId].active == false;
      assert once.profiles[userId := once.profiles[userId].(active := false)] == once.profiles;
    }
  }

  /** A ban followed by an unban of the same account (with the same service
      answers and no write failures) reactivates its profile and clears its
      e-mail from the banned set. */
  lemma BanThenUnban(t: Tables, call: BanCall)
    requires BanSpec(t, call).status == 200 && call.body.value.ban
    requires !call.banInsertFails && !call.unbanDeleteFails
    ensures var unban := call.(body := Some(call.body.value.(ban := false)));
      var after := BanSpec(BanSpec(t, call).tables, unban);
      var userId := call.body.value.userId.value;
      && after.status == 200
      && call.accounts[userId] !in after.tables.bannedEmails
      && (userId in t.profiles ==> after.tables.profiles[userId].active)
  {
  }
}
