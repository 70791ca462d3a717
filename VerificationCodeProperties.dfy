/** What the two verification-code handlers promise, stated over their
    specification functions: single use, expiry, type matching, the
    compensating delete and "nothing else changes". */
module VerificationCodeProperties {
  import opened Wrappers
  import opened Schema
  import opened Seqs
  import opened VerificationCodes
  import JsText

  // ---------------------------------------------------------------------------
  // Issuance

  /** The status codes of issuance and the state each leaves behind. */
  lemma IssueStatusCodes(s: seq<CodeRecord>, body: Option<IssueRequest>, env: IssueEnv)
    ensures var r := IssueSpec(s, body, env);
      && (r.status == 400 <==> !WellFormedIssue(body))
      && (r.status == 400 ==> r.records == s && r.attempted.None?)
      && (r.status == 502 <==> WellFormedIssue(body) && r.attempted.Some? && env.send == Unreachable)
      && (r.status == 200 <==> WellFormedIssue(body) && r.attempted.Some? && env.send == Delivered)
      && r.status in {200, 400, 500, 502}
  {
    if WellFormedIssue(body) && env.supabaseConfigured && env.resendConfigured {
      var purged := AfterDelete(s, body.value.email.value, env);
      if !InsertRejected(purged, env) {
        var rec := NewRecord(body.value, env);
        assert IssueSpec(s, body, env).attempted == Some(Email(rec.email, Subject, Intro(rec.codeType), rec.code));
      } else {
        assert IssueSpec(s, body, env) == IssueResult(500, purged, None);
      }
    } else if WellFormedIssue(body) {
      assert IssueSpec(s, body, env) == IssueResult(500, s, None);
    }
  }

  /** The delete step: no unverified record for the email is left, whatever
      its type; verified records and other emails' records all stay. */
  lemma {:induction false} PurgeUnverifiedEffect(s: seq<CodeRecord>, email: string)
    ensures forall r | r in PurgeUnverified(s, email) :: r in s && !Pending(r, email)
    ensures forall r | r in s && !Pending(r, email) :: r in PurgeUnverified(s, email)
  {
    var p := PurgeUnverified(s, email);
    forall r | r in p ensures r in s && !Pending(r, email) {
      var i :| 0 <= i < |p| && p[i] == r;
      assert KeptByPurge(email)(p[i]);
    }
    forall r | r in s && !Pending(r, email) ensures r in p {
      var i :| 0 <= i < |s| && s[i] == r;
      assert KeptByPurge(email)(s[i]);
    }
  }

  /** A successful issuance stores exactly one new record after the delete
      step: unverified, carrying a six-digit code, expiring 10 minutes later;
      the e-mail carries that code to that address. */
  lemma IssueSuccess(s: seq<CodeRecord>, body: Option<IssueRequest>, env: IssueEnv)
    requires IssueSpec(s, body, env).status == 200
    ensures WellFormedIssue(body) && env.send == Delivered
    ensures var email := body.value.email.value;
      var r := IssueSpec(s, body, env);
      var rec := r.records[|r.records| - 1];
      && r.records == AfterDelete(s, email, env) + [rec]
      && rec.email == email && rec.codeType == body.value.codeType.value
      && !rec.verified
      && rec.expiresAt == env.now + 10 * 60 * 1000
      && |rec.code| == 6 && 100000 <= JsText.ParseDecimal(rec.code) <= 999999
      && r.attempted == Some(Email(email, Subject, Intro(rec.codeType), rec.code))
  {
    var rec := NewRecord(body.value, env);
    assert IssueSpec(s, body, env).records == AfterDelete(s, body.value.email.value, env) + [rec];
  }

  /** A failed insert answers 500 before any e-mail is sent. */
  lemma IssueInsertFailure(s: seq<CodeRecord>, body: Option<IssueRequest>, env: IssueEnv)
    requires WellFormedIssue(body) && env.supabaseConfigured && env.resendConfigured
    requires env.insertFails
    ensures var r := IssueSpec(s, body, env);
      r.status == 500 && r.attempted.None? && r.records == AfterDelete(s, body.value.email.value, env)
  {
  }

  lemma {:induction false} RemoveAppended(p: seq<CodeRecord>, rec: CodeRecord)
    requires !IdInUse(p, rec.id)
    ensures RemoveId(p + [rec], rec.id) == p
  {
    FilterAppend(p, [rec], KeptByRemove(rec.id));
    FilterKeepsAll(p, KeptByRemove(rec.id));
    assert Filter([rec], KeptByRemove(rec.id)) == [];
  }

  /** When the provider refuses (500) or cannot be reached (502), the record
      just inserted is deleted again: the table is what the delete step left,
      so the email's old unverified codes stay gone and the new one is absent. */
  lemma IssueCompensation(s: seq<CodeRecord>, body: Option<IssueRequest>, env: IssueEnv)
    requires WellFormedIssue(body) && env.supabaseConfigured && env.resendConfigured
    requires env.send != Delivered && !env.compensationFails
    ensures var r := IssueSpec(s, body, env);
      && (r.status == 500 || r.status == 502)
      && r.records == AfterDelete(s, body.value.email.value, env)
  {
    var purged := AfterDelete(s, body.value.email.value, env);
    if !InsertRejected(purged, env) {
      RemoveAppended(purged, NewRecord(body.value, env));
    }
  }

  /** Issuance keeps ids unique. */
  lemma IssueKeepsUniqueIds(s: seq<CodeRecord>, body: Option<IssueRequest>, env: IssueEnv)
    requires UniqueIds(s)
    ensures UniqueIds(IssueSpec(s, body, env).records)
  {
    if WellFormedIssue(body) && env.supabaseConfigured && env.resendConfigured {
      var email := body.value.email.value;
      FilterKeepsPairwise(s, KeptByPurge(email), IdsDiffer);
      var purged := AfterDelete(s, email, env);
      if !InsertRejected(purged, env) {
        var rec := NewRecord(body.value, env);
        AppendFreshKeepsUniqueIds(purged, rec);
        FilterKeepsPairwise(purged + [rec], KeptByRemove(rec.id), IdsDiffer);
      }
    }
  }

  /** With a successful delete step, issuance leaves at most one unverified
      record per email, so at most one code per email is usable. */
  lemma IssueKeepsOnePending(s: seq<CodeRecord>, body: Option<IssueRequest>, env: IssueEnv)
    requires OnePendingPerEmail(s) && !env.deleteFails
    ensures OnePendingPerEmail(IssueSpec(s, body, env).records)
  {
    if WellFormedIssue(body) && env.supabaseConfigured && env.resendConfigured {
      var email := body.value.email.value;
      var purged := PurgeUnverified(s, email);
      FilterKeepsPairwise(s, KeptByPurge(email), NotBothPending);
      if !InsertRejected(purged, env) {
        var rec := NewRecord(body.value, env);
        var stored := purged + [rec];
        PurgeUnverifiedEffect(s, email);
        forall i, j | 0 <= i < j < |stored| ensures NotBothPending(stored[i], stored[j]) {
          if j == |stored| - 1 {
            assert stored[i] in purged;
          } else {
            assert stored[i] == purged[i] && stored[j] == purged[j];
          }
        }
        FilterKeepsPairwise(stored, KeptByRemove(rec.id), NotBothPending);
      }
    }
  }

  // ---------------------------------------------------------------------------
  // Verification

  /** The status codes of verification; every failure leaves the table as it was. */
  lemma VerifyStatusCodes(s: seq<CodeRecord>, body: Option<VerifyRequest>, env: VerifyEnv)
    ensures var r := VerifySpec(s, body, env);
      && (!WellFormedVerify(body) ==> r.status == 400)
      && (r.status != 200 ==> r.records == s)
      && (r.status == 200 <==>
            WellFormedVerify(body) && env.supabaseConfigured && !env.lookupFails && !env.updateFails
            && |LiveFor(s, body.value, env.now)| == 1)
      && ((WellFormedVerify(body) && env.supabaseConfigured && !env.lookupFails
            && LiveFor(s, body.value, env.now) == []) ==> r.status == 400)
      && (WellFormedVerify(body) && env.supabaseConfigured && env.lookupFails ==> r.status == 500)
      && (WellFormedVerify(body) && env.supabaseConfigured && |LiveFor(s, body.value, env.now)| > 1 ==> r.status == 500)
  {
  }

  /** Only a record with the same email, code and type, unverified and with
      `expires_at >= now` can make verification succeed: a wrong type, a used
      code or an expired code is refused. */
  lemma {:induction false} VerifyNeedsLiveRecord(s: seq<CodeRecord>, body: Option<VerifyRequest>, env: VerifyEnv)
    requires VerifySpec(s, body, env).status == 200
    ensures WellFormedVerify(body)
    ensures exists k | 0 <= k < |s| ::
      Live(s[k], body.value.email.value, body.value.code.value, body.value.codeType.value, env.now)
  {
    var req := body.value;
    var found := LiveFor(s, req, env.now);
    assert found[0] in s;
    var k :| 0 <= k < |s| && s[k] == found[0];
    assert LiveFilter(req.email.value, req.code.value, req.codeType.value, env.now)(found[0]);
  }

  /** On success exactly the matched record's flag goes from false to true;
      every other record, and every other field, is unchanged. */
  lemma {:induction false} VerifyMarksOnlyMatch(s: seq<CodeRecord>, body: Option<VerifyRequest>, env: VerifyEnv)
    requires UniqueIds(s)
    requires VerifySpec(s, body, env).status == 200
    ensures exists k | 0 <= k < |s| ::
      && Live(s[k], body.value.email.value, body.value.code.value, body.value.codeType.value, env.now)
      && VerifySpec(s, body, env).records == s[k := s[k].(verified := true)]
  {
    var req := body.value;
    var found := LiveFor(s, req, env.now);
    assert found[0] in s;
    var k :| 0 <= k < |s| && s[k] == found[0];
    assert LiveFilter(req.email.value, req.code.value, req.codeType.value, env.now)(found[0]);
    var marked := MarkVerified(s, s[k].id);
    forall i | 0 <= i < |s| ensures marked[i] == s[k := s[k].(verified := true)][i] {
      if i != k {
        if i < k { assert IdsDiffer(s[i], s[k]); } else { assert IdsDiffer(s[k], s[i]); }
      }
    }
    assert marked == s[k := s[k].(verified := true)];
  }

  /** Single use: once a code has verified, presenting it again (at the same
      time or later) never succeeds. */
  lemma VerifySingleUse(s: seq<CodeRecord>, body: Option<VerifyRequest>, env: VerifyEnv, later: VerifyEnv)
    requires VerifySpec(s, body, env).status == 200
    requires later.now >= env.now
    ensures VerifySpec(VerifySpec(s, body, env).records, body, later).status != 200
  {
    var req := body.value;
    var email, code, codeType := req.email.value, req.code.value, req.codeType.value;
    var live := LiveFilter(email, code, codeType, env.now);
    var found := LiveFor(s, req, env.now);
    assert |found| == 1 && found == Filter(s, live);
    assert found[0] in s;
    var k :| 0 <= k < |s| && s[k] == found[0];
    var s1 := MarkVerified(s, s[k].id);
    assert VerifySpec(s, body, env).records == s1;
    // a record keeping its flag differs from the only record live at `env.now`
    forall i | 0 <= i < |s1| ensures !LiveFilter(email, code, codeType, later.now)(s1[i]) {
      if s[i].id != s[k].id {
        FilterAtMostOne(s, live, i, k);
      }
    }
    FilterKeepsNone(s1, LiveFilter(email, code, codeType, later.now));
  }

  /** Verification keeps ids unique and never creates a second usable code. */
  lemma VerifyKeepsInvariants(s: seq<CodeRecord>, body: Option<VerifyRequest>, env: VerifyEnv)
    ensures UniqueIds(s) ==> UniqueIds(VerifySpec(s, body, env).records)
    ensures OnePendingPerEmail(s) ==> OnePendingPerEmail(VerifySpec(s, body, env).records)
  {
  }

  /** Under the one-pending-code-per-email invariant at most one record is live
      for a lookup, so the lookup's "more than one row" error cannot happen. */
  lemma {:induction false} AtMostOneLive(s: seq<CodeRecord>, email: string, code: string, codeType: string, now: int)
    requires OnePendingPerEmail(s)
    ensures |LiveRecords(s, email, code, codeType, now)| <= 1
  {
    if s != [] {
      var rest := s[1..];
      assert Pairwise(rest, NotBothPending) by {
        forall i, j | 0 <= i < j < |rest| ensures NotBothPending(rest[i], rest[j]) {
          assert rest[i] == s[i + 1] && rest[j] == s[j + 1];
        }
      }
      AtMostOneLive(rest, email, code, codeType, now);
      if Live(s[0], email, code, codeType, now) {
        forall i | 0 <= i < |rest| ensures !LiveFilter(email, code, codeType, now)(rest[i]) {
          assert NotBothPending(s[0], s[i + 1]);
        }
        FilterKeepsNone(rest, LiveFilter(email, code, codeType, now));
      }
    }
  }

  /** When every delete step has succeeded (one pending code per email) and the
      store answers, verification succeeds iff some record has the same email,
      code and type, is unverified, and has `expires_at >= now`. */
  lemma VerifySucceedsIffLive(s: seq<CodeRecord>, req: VerifyRequest, env: VerifyEnv)
    requires OnePendingPerEmail(s)
    requires WellFormedVerify(Some(req)) && env.supabaseConfigured && !env.lookupFails && !env.updateFails
    ensures VerifySpec(s, Some(req), env).status == 200 <==>
      exists k | 0 <= k < |s| :: Live(s[k], req.email.value, req.code.value, req.codeType.value, env.now)
  {
    var email, code, codeType := req.email.value, req.code.value, req.codeType.value;
    AtMostOneLive(s, email, code, codeType, env.now);
    if exists k | 0 <= k < |s| :: Live(s[k], email, code, codeType, env.now) {
      var k :| 0 <= k < |s| && Live(s[k], email, code, codeType, env.now);
      assert LiveFilter(email, code, codeType, env.now)(s[k]);
      assert s[k] in LiveFor(s, req, env.now);
    } else {
      FilterKeepsNone(s, LiveFilter(email, code, codeType, env.now));
    }
  }

  // ---------------------------------------------------------------------------
  // Issuance followed by verification

  /** A code issued at `env.now` (with a successful delete step) verifies, with
      the same email and type and a store that answers, exactly when the
      verification happens no later than 10 minutes after issuance: the expiry
      instant itself is still accepted. The same code with another type, and any
      other code for that email, is refused. */
  lemma IssueThenVerify(s: seq<CodeRecord>, ireq: IssueRequest, env: IssueEnv, presented: VerifyRequest, venv: VerifyEnv)
    requires IssueSpec(s, Some(ireq), env).status == 200 && !env.deleteFails
    requires presented.email == ireq.email && Present(presented.code) && Present(presented.codeType)
    requires venv.supabaseConfigured && !venv.lookupFails && !venv.updateFails
    ensures var issued := IssueSpec(s, Some(ireq), env).records;
      var code := GenerateCode(env.draw);
      VerifySpec(issued, Some(presented), venv).status == 200 <==>
        && presented.code.value == code
        && presented.codeType == ireq.codeType
        && venv.now <= env.now + CodeLifetimeMs
  {
    var email := ireq.email.value;
    var rec := NewRecord(ireq, env);
    var issued := PurgeUnverified(s, email) + [rec];
    assert IssueSpec(s, Some(ireq), env).records == issued;
    OnlyNewRecordLive(s, rec, presented.code.value, presented.codeType.value, venv.now);
    var live := LiveFilter(email, presented.code.value, presented.codeType.value, venv.now);
    assert LiveFor(issued, presented, venv.now) == Filter([rec], live);
  }

  /** After the purge of an e-mail's pending codes and the insert of a new one,
      the new record is the only one a lookup for that e-mail can find. */
  lemma OnlyNewRecordLive(s: seq<CodeRecord>, rec: CodeRecord, code: string, codeType: string, now: int)
    ensures LiveRecords(PurgeUnverified(s, rec.email) + [rec], rec.email, code, codeType, now)
         == Filter([rec], LiveFilter(rec.email, code, codeType, now))
  {
    var purged := PurgeUnverified(s, rec.email);
    var live := LiveFilter(rec.email, code, codeType, now);
    PurgeUnverifiedEffect(s, rec.email);
    forall i | 0 <= i < |purged| ensures !live(purged[i]) {
      assert purged[i] in purged;
    }
    FilterKeepsNone(purged, live);
    FilterAppend(purged, [rec], live);
  }
}
