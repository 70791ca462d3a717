/** The `notify-new-offer` serverless handler
    (supabase/functions/notify-new-offer/index.ts): collect the e-mail address
    of every account the listing returns, cut the list into batches of 50,
    and send one message per batch with the batch in blind copy.

    The account listing and the body are inputs; a sent message is recorded
    as its blind-copy list, its subject and its description snippet. */
module NotifyNewOffer {
  import opened Wrappers
  import opened Schema

  const BatchSize: nat := 50
  const SnippetLength: nat := 200

  /** The JSON body; a missing field is `None`. */
  datatype NotifyRequest = NotifyRequest(offerTitle: Option<string>, offerDescription: Option<string>)

  /** The request and the answer of the account listing (`None` on an error).
      The listing is called without paging arguments, so `accounts` is the
      first page it returns, not necessarily every account; each account's
      e-mail is optional. `body` is `None` when it does not parse.
      `sendThrowsAt` is the index of the batch whose send throws (a failure of
      the mail service's request), if any. */
  datatype NotifyCall = NotifyCall(isOptions: bool, body: Option<NotifyRequest>,
                                   accounts: Option<seq<Option<string>>>,
                                   sendThrowsAt: Option<nat>)

  datatype Mail = Mail(bcc: seq<string>, subject: string, snippet: string)

  datatype NotifyResult = NotifyResult(status: int, sent: seq<Mail>)

  // ---------------------------------------------------------------------------
  // Recipients

  /** The accounts' e-mails with the missing and empty ones dropped. */
  function Recipients(accounts: seq<Option<string>>): (emails: seq<string>)
    ensures |emails| <= |accounts|
    ensures forall i | 0 <= i < |emails| :: emails[i] != ""
  {
    if accounts == [] then []
    else (if Present(accounts[0]) then [accounts[0].value] else []) + Recipients(accounts[1..])
  }

  /** Collecting the recipients of two lists of accounts one after the other
      gives the two lists of recipients one after the other: the order of the
      accounts is kept. */
  lemma {:induction false} RecipientsAppend(a: seq<Option<string>>, b: seq<Option<string>>)
    ensures Recipients(a + b) == Recipients(a) + Recipients(b)
  {
    if a == [] {
      assert a + b == b;
    } else {
      assert (a + b)[1..] == a[1..] + b;
      RecipientsAppend(a[1..], b);
    }
  }

  /** An address is a recipient iff some account has it and it is non-empty. */
  lemma {:induction false} RecipientsMembership(accounts: seq<Option<string>>, e: string)
    ensures e in Recipients(accounts) <==> Some(e) in accounts && e != ""
  {
    if accounts != [] {
      RecipientsMembership(accounts[1..], e);
      assert accounts == [accounts[0]] + accounts[1..];
    }
  }

  /** No account with an e-mail, no recipient. */
  lemma {:induction false} RecipientsNone(accounts: seq<Option<string>>)
    requires forall i | 0 <= i < |accounts| :: !Present(accounts[i])
    ensures Recipients(accounts) == []
  {
    if accounts != [] {
      RecipientsNone(accounts[1..]);
    }
  }

  // ---------------------------------------------------------------------------
  // Batches

  /** `emails.slice(i, i + 50)` for every `i` stepping by 50. */
  function Batches(emails: seq<string>): seq<seq<string>>
    decreases |emails|
  {
    if emails == [] then []
    else
      var end := if |emails| < BatchSize then |emails| else BatchSize;
      [emails[..end]] + Batches(emails[end..])
  }

  function Concat(batches: seq<seq<string>>): seq<string> {
    if batches == [] then [] else batches[0] + Concat(batches[1..])
  }

  /** The batches put back together are the list. */
  lemma {:induction false} BatchesConcat(emails: seq<string>)
    ensures Concat(Batches(emails)) == emails
    decreases |emails|
  {
    if emails != [] {
      var end := if |emails| < BatchSize then |emails| else BatchSize;
      BatchesConcat(emails[end..]);
      assert Batches(emails)[1..] == Batches(emails[end..]);
      assert emails[..end] + emails[end..] == emails;
    }
  }

  /** Every batch has 1 to 50 addresses, every batch but the last exactly 50,
      and there are ceil(n / 50) of them. */
  lemma {:induction false} BatchesShape(emails: seq<string>)
    ensures var b := Batches(emails);
      && |b| == (|emails| + BatchSize - 1) / BatchSize
      && (forall k | 0 <= k < |b| :: 1 <= |b[k]| <= BatchSize)
      && (forall k | 0 <= k < |b| - 1 :: |b[k]| == BatchSize)
    decreases |emails|
  {
    if emails != [] {
      var end := if |emails| < BatchSize then |emails| else BatchSize;
      var rest := Batches(emails[end..]);
      BatchesShape(emails[end..]);
      assert Batches(emails) == [emails[..end]] + rest;
      if |emails| < BatchSize {
        assert rest == [];
      } else {
        assert (|emails| + BatchSize - 1) / BatchSize == (|emails| - BatchSize + BatchSize - 1) / BatchSize + 1;
      }
    }
  }

  /** The batching loop of the handler. */
  method MakeBatches(emails: seq<string>) returns (batches: seq<seq<string>>)
    ensures batches == Batches(emails)
  {
    batches := [];
    var i := 0;
    while i < |emails|
      invariant 0 <= i
      invariant i <= |emails| ==> batches + Batches(emails[i..]) == Batches(emails)
      invariant i > |emails| ==> batches == Batches(emails)
      decreases |emails| - i
    {
      var end := if i + BatchSize < |emails| then i + BatchSize else |emails|;
      assert Batches(emails[i..]) == [emails[i..end]] + Batches(emails[end..]) by {
        assert emails[i..][..end - i] == emails[i..end];
        assert emails[i..][end - i..] == emails[end..];
      }
      batches := batches + [emails[i..end]];
      i := i + BatchSize;
      if i > |emails| {
        assert end == |emails| && Batches(emails[end..]) == [];
      }
    }
    if i == |emails| {
      assert Batches(emails[i..]) == [];
    }
  }

  // ---------------------------------------------------------------------------
  // The message

  /** `offerDescription.substring(0, 200)`, then "..." when the description is
      longer than 200 characters. */
  function Snippet(description: string): (s: string)
    ensures |description| <= SnippetLength ==> s == description
    ensures |description| > SnippetLength ==> |s| == SnippetLength + 3
    ensures |description| > SnippetLength ==> s[..SnippetLength] == description[..SnippetLength]
    ensures |description| > SnippetLength ==> s[SnippetLength..] == "..."
  {
    if |description| <= SnippetLength then description else description[..SnippetLength] + "..."
  }

  /** A missing title is rendered as the text "undefined". */
  function Subject(title: Option<string>): string {
    "\U{1F389} Nouvelle offre disponible : " + title.GetOr("undefined")
  }

  function Mails(batches: seq<seq<string>>, subject: string, snippet: string): (mails: seq<Mail>)
    ensures |mails| == |batches|
    ensures forall k | 0 <= k < |mails| :: mails[k] == Mail(batches[k], subject, snippet)
  {
    seq(|batches|, k requires 0 <= k < |batches| => Mail(batches[k], subject, snippet))
  }

  /** The messages of a run in which no send throws. */
  function AllMails(emails: seq<string>, body: NotifyRequest): seq<Mail>
    requires body.offerDescription.Some?
  {
    Mails(Batches(emails), Subject(body.offerTitle), Snippet(body.offerDescription.value))
  }

  /** The handler: the preflight, a body that does not parse or a listing
      error (500), no recipient (200, nothing sent), a missing description
      (the snippet throws before the first send: 500), then one message per
      batch; a send that throws ends the run with 500, the earlier batches
      already sent. */
  function NotifySpec(call: NotifyCall): NotifyResult {
    if call.isOptions then NotifyResult(200, [])
    else if call.body.None? || call.accounts.None? then NotifyResult(500, [])
    else
      var emails := Recipients(call.accounts.value);
      if emails == [] then NotifyResult(200, [])
      else if call.body.value.offerDescription.None? then NotifyResult(500, [])
      else
        var mails := AllMails(emails, call.body.value);
        if call.sendThrowsAt.Some? && call.sendThrowsAt.value < |mails| then
          NotifyResult(500, mails[..call.sendThrowsAt.value])
        else NotifyResult(200, mails)
  }

  /** The sender's outbox. */
  class Mailer {
    var outbox: seq<Mail>

    constructor ()
      ensures outbox == []
    {
      outbox := [];
    }

    method Handle(call: NotifyCall) returns (status: int)
      modifies this
      ensures |old(outbox)| <= |outbox| && outbox[..|old(outbox)|] == old(outbox)
      ensures NotifyResult(status, outbox[|old(outbox)|..]) == NotifySpec(call)
    {
      if call.isOptions {
        return 200;
      }
      if call.body.None? || call.accounts.None? {
        return 500;
      }
      var emails := Recipients(call.accounts.value);
      if emails == [] {
        return 200;
      }
      var batches := MakeBatches(emails);
      if call.body.value.offerDescription.None? {
        return 500;
      }
      var subject := Subject(call.body.value.offerTitle);
      var snippet := Snippet(call.body.value.offerDescription.value);
      ghost var before := outbox;
      ghost var mails := AllMails(emails, call.body.value);
      for k := 0 to |batches|
        invariant outbox == before + mails[..k]
        invariant call.sendThrowsAt.Some? ==> k <= call.sendThrowsAt.value
      {
        if call.sendThrowsAt == Some(k) {
          assert outbox[|before|..] == mails[..k];
          return 500;
        }
        assert mails[..k + 1] == mails[..k] + [Mail(batches[k], subject, snippet)];
        outbox := outbox + [Mail(batches[k], subject, snippet)];
      }
      assert mails[..|batches|] == mails;
      assert outbox[|before|..] == mails;
      return 200;
    }
  }

  // ---------------------------------------------------------------------------
  // Properties

  /** Nothing is sent when no account has an e-mail, and the answer is 200. */
  lemma NoRecipientsNoMail(call: NotifyCall)
    requires !call.isOptions && call.body.Some? && call.accounts.Some?
    requires forall i | 0 <= i < |call.accounts.value| :: !Present(call.accounts.value[i])
    ensures NotifySpec(call) == NotifyResult(200, [])
  {
    RecipientsNone(call.accounts.value);
  }

  /** Whatever send throws, the messages sent are the first ones of the run
      in which none throws, and the answer is 200 exactly when that whole run
      went out. */
  lemma SentIsPrefixOfFullRun(call: NotifyCall)
    requires !call.isOptions && call.body.Some? && call.accounts.Some?
    requires call.body.value.offerDescription.Some?
    ensures var full := NotifySpec(call.(sendThrowsAt := None));
      var r := NotifySpec(call);
      && full.status == 200
      && |r.sent| <= |full.sent| && r.sent == full.sent[..|r.sent|]
      && (r.status == 200 <==> r.sent == full.sent)
      && (r.status == 200 || r.status == 500)
  {
    var full := NotifySpec(call.(sendThrowsAt := None));
    var r := NotifySpec(call);
    if call.sendThrowsAt.Some? && r.sent != full.sent {
      assert |r.sent| < |full.sent|;
    }
  }

  /** A send that throws at batch `k` of a run with more than `k` batches
      answers 500 after exactly the first `k` batches were mailed. */
  lemma ThrowingSendStopsRun(call: NotifyCall, k: nat)
    requires !call.isOptions && call.body.Some? && call.accounts.Some?
    requires call.body.value.offerDescription.Some? && call.sendThrowsAt == Some(k)
    requires k < |Batches(Recipients(call.accounts.value))|
    ensures var r := NotifySpec(call);
      && r.status == 500
      && |r.sent| == k
      && forall j | 0 <= j < k :: r.sent[j].bcc == Batches(Recipients(call.accounts.value))[j]
  {
  }

  /** A successful send reaches every recipient exactly once, in account
      order: one message per batch, in batch order, each carrying the same
      subject and snippet, at most 50 addresses and at least one. */
  lemma OneMailPerBatch(call: NotifyCall)
    requires NotifySpec(call).status == 200 && NotifySpec(call).sent != []
    ensures call.accounts.Some? && call.body.Some? && call.body.value.offerDescription.Some?
    ensures var emails := Recipients(call.accounts.value);
      var sent := NotifySpec(call).sent;
      && |sent| == (|emails| + BatchSize - 1) / BatchSize
      && (forall k | 0 <= k < |sent| :: sent[k].bcc == Batches(emails)[k] && 1 <= |sent[k].bcc| <= BatchSize)
      && Concat(Batches(emails)) == emails
  {
    var emails := Recipients(call.accounts.value);
    BatchesShape(emails);
    BatchesConcat(emails);
  }
}
