/** The `verification_codes` table and the two serverless handlers that share it:
    supabase/functions/send-verification-email (issuance) and
    supabase/functions/verify-code (verification).

    Timestamps are integer milliseconds. The clock reading, the random draw, the
    outcome of every store call and of the e-mail provider are inputs of a call;
    a response is modelled by its HTTP status (and, for issuance, the e-mail
    that was handed to the provider). */
module VerificationCodes {
  import opened Wrappers
  import opened Schema
  import opened Seqs
  import JsText

  /** A code expires 10 minutes after issuance. */
  const CodeLifetimeMs: int := 10 * 60 * 1000

  const LowestCode: nat := 100000
  const CodeSpan: nat := 900000

  /** `Math.floor(Math.random() * 900000)`, the random part of a code. */
  type Draw = d: nat | d < CodeSpan

  /** A row of `verification_codes`; `codeType` is the `type` column. */
  datatype CodeRecord = CodeRecord(
    id: nat,
    email: string,
    code: string,
    codeType: string,
    userId: Option<string>,
    expiresAt: int,
    verified: bool)

  /** `generateCode`: a six-digit decimal string between 100000 and 999999. */
  function GenerateCode(draw: Draw): (code: string)
    ensures |code| == 6
    ensures forall i :: 0 <= i < |code| ==> JsText.IsDigit(code[i])
    ensures JsText.ParseDecimal(code) == LowestCode + draw
    ensures LowestCode <= JsText.ParseDecimal(code) <= 999999
  {
    JsText.SixDigitBounds();
    JsText.DecimalLength(LowestCode + draw, 6);
    JsText.DecimalString(LowestCode + draw)
  }

  // ---------------------------------------------------------------------------
  // Table operations

  predicate IdsDiffer(a: CodeRecord, b: CodeRecord) {
    a.id != b.id
  }

  /** The primary key: no two rows share an id. */
  predicate UniqueIds(s: seq<CodeRecord>) {
    Pairwise(s, IdsDiffer)
  }

  predicate IdInUse(s: seq<CodeRecord>, id: nat) {
    exists i | 0 <= i < |s| :: s[i].id == id
  }

  predicate Pending(r: CodeRecord, email: string) {
    r.email == email && !r.verified
  }

  /** The rows a delete by email and `verified = false` leaves in place. */
  function KeptByPurge(email: string): CodeRecord -> bool {
    r => !Pending(r, email)
  }

  /** `delete().eq("email", email).eq("verified", false)`. */
  function PurgeUnverified(s: seq<CodeRecord>, email: string): seq<CodeRecord> {
    Filter(s, KeptByPurge(email))
  }

  function KeptByRemove(id: nat): CodeRecord -> bool {
    (r: CodeRecord) => r.id != id
  }

  /** `delete().eq("id", id)`. */
  function RemoveId(s: seq<CodeRecord>, id: nat): seq<CodeRecord> {
    Filter(s, KeptByRemove(id))
  }

  /** `update({ verified: true }).eq("id", id)`. */
  function MarkVerified(s: seq<CodeRecord>, id: nat): seq<CodeRecord> {
    seq(|s|, i requires 0 <= i < |s| => if s[i].id == id then s[i].(verified := true) else s[i])
  }

  /** The filter of the verification lookup: same email, code and type, not yet
      verified, and `expires_at >= now` (the boundary instant still counts). */
  predicate Live(r: CodeRecord, email: string, code: string, codeType: string, now: int) {
    r.email == email && r.code == code && r.codeType == codeType && !r.verified && r.expiresAt >= now
  }

  function LiveFilter(email: string, code: string, codeType: string, now: int): CodeRecord -> bool {
    r => Live(r, email, code, codeType, now)
  }

  function LiveRecords(s: seq<CodeRecord>, email: string, code: string, codeType: string, now: int): seq<CodeRecord> {
    Filter(s, LiveFilter(email, code, codeType, now))
  }

  /** Operational invariant: at most one unverified record per email. Issuance
      keeps it whenever its delete step succeeds. */
  predicate NotBothPending(a: CodeRecord, b: CodeRecord) {
    a.email == b.email ==> a.verified || b.verified
  }

  predicate OnePendingPerEmail(s: seq<CodeRecord>) {
    Pairwise(s, NotBothPending)
  }

  // ---------------------------------------------------------------------------
  // Issuance (send-verification-email)

  /** The JSON body; a field left out or sent as null is None. */
  datatype IssueRequest = IssueRequest(email: Option<string>, codeType: Option<string>, userId: Option<string>)

  /** What the e-mail provider did: answered ok, answered non-ok, or could not be reached. */
  datatype SendOutcome = Delivered | Refused | Unreachable

  /** Everything a call depends on besides the table: the clock, the random
      draw, the id the database assigns, the configuration, and whether each
      store call fails. */
  datatype IssueEnv = IssueEnv(
    now: int,
    draw: Draw,
    freshId: nat,
    supabaseConfigured: bool,
    resendConfigured: bool,
    deleteFails: bool,
    insertFails: bool,
    send: SendOutcome,
    compensationFails: bool)

  /** The message handed to the provider; `intro` is the purpose-specific line. */
  datatype Email = Email(to: string, subject: string, intro: string, code: string)

  datatype IssueResult = IssueResult(status: int, records: seq<CodeRecord>, attempted: Option<Email>)

  const Subject: string := "Votre code de vérification • CHEATPLACE"
  const LoginIntro: string := "Voici votre code pour vous connecter :"
  const SignupIntro: string := "Voici votre code pour finaliser votre inscription :"

  /** The wording of the e-mail: the login text for "login", the signup text for any other type. */
  function Intro(codeType: string): (text: string)
    ensures text == LoginIntro <==> codeType == "login"
    ensures text == SignupIntro <==> codeType != "login"
  {
    if codeType == "login" then LoginIntro else SignupIntro
  }

  predicate WellFormedIssue(body: Option<IssueRequest>) {
    body.Some? && Present(body.value.email) && Present(body.value.codeType)
  }

  /** The row inserted for a request: unverified, expiring 10 minutes after `now`. */
  function NewRecord(req: IssueRequest, env: IssueEnv): CodeRecord
    requires Present(req.email) && Present(req.codeType)
  {
    CodeRecord(env.freshId, req.email.value, GenerateCode(env.draw), req.codeType.value,
               if Present(req.userId) then req.userId else None,
               env.now + CodeLifetimeMs, false)
  }

  /** The table after the delete step (which leaves it alone when it fails). */
  function AfterDelete(s: seq<CodeRecord>, email: string, env: IssueEnv): seq<CodeRecord> {
    if env.deleteFails then s else PurgeUnverified(s, email)
  }

  function InsertRejected(s: seq<CodeRecord>, env: IssueEnv): bool {
    env.insertFails || IdInUse(s, env.freshId)
  }

  /** The handler's effect, step by step: validate, check configuration, delete
      the email's unverified codes, insert, send, undo the insert if the send failed. */
  function IssueSpec(s: seq<CodeRecord>, body: Option<IssueRequest>, env: IssueEnv): IssueResult {
    if !WellFormedIssue(body) then IssueResult(400, s, None)
    else if !env.supabaseConfigured || !env.resendConfigured then IssueResult(500, s, None)
    else
      var req := body.value;
      var purged := AfterDelete(s, req.email.value, env);
      if InsertRejected(purged, env) then IssueResult(500, purged, None)
      else
        var rec := NewRecord(req, env);
        var stored := purged + [rec];
        var mail := Email(rec.email, Subject, Intro(rec.codeType), rec.code);
        var undone := if env.compensationFails then stored else RemoveId(stored, rec.id);
        match env.send
        case Delivered => IssueResult(200, stored, Some(mail))
        case Refused => IssueResult(500, undone, Some(mail))
        case Unreachable => IssueResult(502, undone, Some(mail))
  }

  // ---------------------------------------------------------------------------
  // Verification (verify-code)

  datatype VerifyRequest = VerifyRequest(email: Option<string>, code: Option<string>, codeType: Option<string>)

  /** The clock, the configuration, and whether the lookup or the update fails. */
  datatype VerifyEnv = VerifyEnv(now: int, supabaseConfigured: bool, lookupFails: bool, updateFails: bool)

  datatype VerifyResult = VerifyResult(status: int, records: seq<CodeRecord>)

  predicate WellFormedVerify(body: Option<VerifyRequest>) {
    body.Some? && Present(body.value.email) && Present(body.value.code) && Present(body.value.codeType)
  }

  function LiveFor(s: seq<CodeRecord>, req: VerifyRequest, now: int): seq<CodeRecord>
    requires Present(req.email) && Present(req.code) && Present(req.codeType)
  {
    LiveRecords(s, req.email.value, req.code.value, req.codeType.value, now)
  }

  /** The handler's effect: validate, look the code up (`maybeSingle`, so more
      than one match is an error), then mark the match verified. */
  function VerifySpec(s: seq<CodeRecord>, body: Option<VerifyRequest>, env: VerifyEnv): VerifyResult {
    if !WellFormedVerify(body) then VerifyResult(400, s)
    else if !env.supabaseConfigured then VerifyResult(500, s)
    else
      var found := LiveFor(s, body.value, env.now);
      if env.lookupFails || |found| > 1 then VerifyResult(500, s)
      else if found == [] then VerifyResult(400, s)
      else if env.updateFails then VerifyResult(500, s)
      else VerifyResult(200, MarkVerified(s, found[0].id))
  }

  // ---------------------------------------------------------------------------
  // The table, updated in place by both handlers

  class CodeStore {
    var records: seq<CodeRecord>

    ghost predicate Valid()
      reads this
    {
      UniqueIds(records)
    }

    constructor ()
      ensures Valid() && records == []
    {
      records := [];
    }

    method Issue(body: Option<IssueRequest>, env: IssueEnv) returns (status: int, attempted: Option<Email>)
      requires Valid()
      modifies this
      ensures Valid()
      ensures IssueResult(status, records, attempted) == IssueSpec(old(records), body, env)
    {
      ghost var s0 := records;
      if body.None? {
        return 400, None;
      }
      var req := body.value;
      if !Present(req.email) || !Present(req.codeType) {
        return 400, None;
      }
      if !env.supabaseConfigured || !env.resendConfigured {
        return 500, None;
      }
      var email := req.email.value;
      var code := GenerateCode(env.draw);
      var expiresAt := env.now + CodeLifetimeMs;

      // best effort: a failed delete does not stop issuance
      if !env.deleteFails {
        FilterKeepsPairwise(records, KeptByPurge(email), IdsDiffer);
        records := PurgeUnverified(records, email);
      }
      assert records == AfterDelete(s0, email, env);

      if env.insertFails || IdInUse(records, env.freshId) {
        return 500, None;
      }
      var userId := if Present(req.userId) then req.userId else None;
      var rec := CodeRecord(env.freshId, email, code, req.codeType.value, userId, expiresAt, false);
      assert rec == NewRecord(req, env);
      AppendFreshKeepsUniqueIds(records, rec);
      records := records + [rec];

      attempted := Some(Email(email, Subject, Intro(rec.codeType), code));
      if env.send != Delivered {
        // compensation: remove the row just inserted
        if !env.compensationFails {
          FilterKeepsPairwise(records, KeptByRemove(rec.id), IdsDiffer);
          records := RemoveId(records, rec.id);
        }
        status := if env.send == Refused then 500 else 502;
        return;
      }
      status := 200;
    }

    method Verify(body: Option<VerifyRequest>, env: VerifyEnv) returns (status: int)
      requires Valid()
      modifies this
      ensures Valid()
      ensures VerifyResult(status, records) == VerifySpec(old(records), body, env)
    {
      if body.None? {
        return 400;
      }
      var req := body.value;
      if !Present(req.email) || !Present(req.code) || !Present(req.codeType) {
        return 400;
      }
      if !env.supabaseConfigured {
        return 500;
      }
      var email, code, codeType := req.email.value, req.code.value, req.codeType.value;

      // the filtered lookup: count the matches and keep the first
      var rows := records;
      var count := 0;
      var first: Option<CodeRecord> := None;
      var i := 0;
      while i < |rows|
        invariant 0 <= i <= |rows|
        invariant records == rows
        invariant count == |LiveRecords(rows[..i], email, code, codeType, env.now)|
        invariant count == 0 <==> first.None?
        invariant first.Some? ==> first.value == LiveRecords(rows[..i], email, code, codeType, env.now)[0]
      {
        assert rows[..i + 1] == rows[..i] + [rows[i]];
        LiveStep(rows[..i], rows[i], email, code, codeType, env.now);
        if Live(rows[i], email, code, codeType, env.now) {
          if first.None? {
            first := Some(rows[i]);
          }
          count := count + 1;
        }
        i := i + 1;
      }
      assert rows[..i] == rows;

      if env.lookupFails || count > 1 {
        return 500;
      }
      if first.None? {
        return 400;
      }
      if env.updateFails {
        return 500;
      }
      MarkVerifiedKeepsIds(records, first.value.id);
      records := MarkVerified(records, first.value.id);
      status := 200;
    }
  }

  // ---------------------------------------------------------------------------
  // Helper facts

  lemma AppendFreshKeepsUniqueIds(s: seq<CodeRecord>, rec: CodeRecord)
    requires UniqueIds(s) && !IdInUse(s, rec.id)
    ensures UniqueIds(s + [rec])
  {
  }

  /** The lookup over one more row finds that row too when it is live. */
  lemma LiveStep(s: seq<CodeRecord>, r: CodeRecord, email: string, code: string, codeType: string, now: int)
    ensures LiveRecords(s + [r], email, code, codeType, now)
         == LiveRecords(s, email, code, codeType, now) + (if Live(r, email, code, codeType, now) then [r] else [])
  {
    FilterAppend(s, [r], LiveFilter(email, code, codeType, now));
  }

  lemma MarkVerifiedKeepsIds(s: seq<CodeRecord>, id: nat)
    requires UniqueIds(s)
    ensures UniqueIds(MarkVerified(s, id))
  {
  }
}
