/** The vendor's offer editor (src/components/dashboard/OffersManager.tsx): the
    offer schema, the comma-separated tag field, the file upload path, the
    create and update mutations, and the form state around them.

    `parseFloat`, the clock, the storage's public-URL function and the outcome
    of each service call are inputs. */
module OffersManager {
  import opened Wrappers
  import opened Schema
  import opened Seqs
  import JsText
  import OffersSection

  // ---------------------------------------------------------------------------
  // Tags

  predicate IsTag(t: string) {
    t != ""
  }

  function TrimAll(pieces: seq<string>): (r: seq<string>)
    ensures |r| == |pieces|
    ensures forall i :: 0 <= i < |r| ==> r[i] == JsText.Trim(pieces[i]) && JsText.Trimmed(r[i])
  {
    seq(|pieces|, i requires 0 <= i < |pieces| => JsText.Trim(pieces[i]))
  }

  /** A tag as the parser produces it: non-empty, trimmed, without a comma. */
  predicate WellFormedTag(t: string) {
    t != "" && JsText.Trimmed(t) && ',' !in t
  }

  /** The pieces trimmed, the empty ones dropped. */
  function CleanPieces(pieces: seq<string>): (tags: seq<string>)
    ensures |tags| <= |pieces|
    ensures forall i | 0 <= i < |tags| :: tags[i] != "" && JsText.Trimmed(tags[i])
  {
    var trimmed := TrimAll(pieces);
    var tags := Filter(trimmed, IsTag);
    forall i | 0 <= i < |tags| ensures tags[i] != "" && JsText.Trimmed(tags[i]) {
      assert tags[i] in trimmed;
    }
    tags
  }

  /** The tag field read on submit: split on ",", trim each piece, drop the
      empty ones. */
  function ParseTags(text: string): (tags: seq<string>)
    ensures forall i | 0 <= i < |tags| :: tags[i] != "" && JsText.Trimmed(tags[i])
  {
    CleanPieces(JsText.Split(text, ','))
  }

  /** The tag field filled in when an offer is edited. */
  function JoinTags(tags: seq<string>): string {
    JsText.Join(tags, ", ")
  }

  /** The comma-joined pieces of a ", "-join: every part but the first keeps
      the space that followed the comma. */
  function Spaced(tags: seq<string>, lead: string): (r: seq<string>)
    ensures |r| == |tags|
  {
    seq(|tags|, i requires 0 <= i < |tags| => (if i == 0 then lead else " ") + tags[i])
  }

  lemma {:induction false} JoinSpaced(tags: seq<string>, lead: string)
    requires |tags| >= 1
    ensures JsText.Join(Spaced(tags, lead), ",") == lead + JoinTags(tags)
  {
    if |tags| > 1 {
      assert Spaced(tags, lead)[1..] == Spaced(tags[1..], " ");
      JoinSpaced(tags[1..], " ");
    }
  }

  /** The ", "-join of comma-free tags splits on "," into the spaced pieces. */
  lemma SplitJoinTags(tags: seq<string>)
    requires |tags| >= 1 && forall i | 0 <= i < |tags| :: ',' !in tags[i]
    ensures JsText.Split(JoinTags(tags), ',') == Spaced(tags, "")
  {
    var pieces := Spaced(tags, "");
    JoinSpaced(tags, "");
    assert "" + JoinTags(tags) == JoinTags(tags);
    forall k | 0 <= k < |pieces| ensures ',' !in pieces[k] {
      assert pieces[k] == (if k == 0 then "" else " ") + tags[k];
    }
    JsText.SplitJoin(pieces, ',');
  }

  lemma TrimSpacedPiece(tags: seq<string>, i: int)
    requires 0 <= i < |tags| && JsText.Trimmed(tags[i])
    ensures JsText.Trim(Spaced(tags, "")[i]) == tags[i]
  {
    JsText.TrimAfterSpace(tags[i]);
    if i == 0 {
      assert Spaced(tags, "")[i] == tags[i];
    } else {
      assert Spaced(tags, "")[i] == " " + tags[i];
    }
  }

  /** Trimming the spaced pieces of non-empty trimmed tags gives the tags. */
  lemma CleanSpaced(tags: seq<string>)
    requires forall i | 0 <= i < |tags| :: tags[i] != "" && JsText.Trimmed(tags[i])
    ensures CleanPieces(Spaced(tags, "")) == tags
  {
    var pieces := Spaced(tags, "");
    var trimmed := TrimAll(pieces);
    forall i | 0 <= i < |tags| ensures trimmed[i] == tags[i] {
      TrimSpacedPiece(tags, i);
    }
    assert trimmed == tags;
    FilterKeepsAll(tags, IsTag);
    assert CleanPieces(pieces) == Filter(trimmed, IsTag);
  }

  /** Round trip: well-formed tags joined for editing and parsed again on
      submit come back unchanged. */
  lemma TagsRoundTrip(tags: seq<string>)
    requires forall i | 0 <= i < |tags| :: WellFormedTag(tags[i])
    ensures ParseTags(JoinTags(tags)) == tags
  {
    if tags == [] {
      assert JsText.Split("", ',') == [""];
      JsText.TrimAfterSpace("");
      assert TrimAll([""]) == [""];
      FilterKeepsNone([""], IsTag);
    } else {
      SplitJoinTags(tags);
      CleanSpaced(tags);
    }
  }

  /** A character no piece holds is in no cleaned tag. */
  lemma CleanPiecesKeepOut(pieces: seq<string>, c: char)
    requires forall k | 0 <= k < |pieces| :: c !in pieces[k]
    ensures forall i | 0 <= i < |CleanPieces(pieces)| :: c !in CleanPieces(pieces)[i]
  {
    var trimmed := TrimAll(pieces);
    var tags := CleanPieces(pieces);
    assert tags == Filter(trimmed, IsTag);
    forall i | 0 <= i < |tags| ensures c !in tags[i] {
      assert tags[i] in trimmed;
      var k :| 0 <= k < |trimmed| && trimmed[k] == tags[i];
      TrimKeepsOut(pieces[k], c);
    }
  }

  /** Parsing is idempotent: the parsed tags survive a join and a second parse. */
  lemma ParseTagsStable(text: string)
    ensures ParseTags(JoinTags(ParseTags(text))) == ParseTags(text)
  {
    CleanPiecesKeepOut(JsText.Split(text, ','), ',');
    TagsRoundTrip(ParseTags(text));
  }

  /** Trimming adds no character: one absent before is absent after. */
  lemma TrimKeepsOut(s: string, c: char)
    requires c !in s
    ensures c !in JsText.Trim(s)
  {
    var t := JsText.TrimStart(s);
    assert forall i | 0 <= i < |t| :: t[i] == s[|s| - |t| + i];
    var u := JsText.TrimEnd(t);
    assert forall i | 0 <= i < |u| :: u[i] == t[i];
  }

  // ---------------------------------------------------------------------------
  // The offer schema

  const TitleTooShort: string := "Le titre doit contenir au moins 3 caractères"
  const TitleTooLong: string := "String must contain at most 100 character(s)"
  const DescriptionTooShort: string := "La description doit contenir au moins 10 caractères"
  const DescriptionTooLong: string := "String must contain at most 1000 character(s)"
  /** The schema library's message for a NaN where a number is expected. */
  const PriceNotANumber: string := "Expected number, received nan"
  const PriceNegative: string := "Le prix doit être positif"

  /** The values the schema checks; `price` is `None` for NaN. */
  datatype OfferDraft = OfferDraft(title: string, description: string, price: Option<real>, tags: string)

  /** Every issue `offerSchema` reports, in field order. */
  function OfferIssues(d: OfferDraft): (issues: seq<string>)
    ensures issues == [] <==>
      3 <= |d.title| <= 100 && 10 <= |d.description| <= 1000 && d.price.Some? && d.price.value >= 0.0
    ensures issues != [] ==>
              issues[0] in {TitleTooShort, TitleTooLong, DescriptionTooShort, DescriptionTooLong, PriceNotANumber, PriceNegative}
    ensures |d.title| < 3 ==> issues[0] == TitleTooShort
  {
    (if |d.title| >= 3 then [] else [TitleTooShort])
    + (if |d.title| <= 100 then [] else [TitleTooLong])
    + (if |d.description| >= 10 then [] else [DescriptionTooShort])
    + (if |d.description| <= 1000 then [] else [DescriptionTooLong])
    + (match d.price
       case None => [PriceNotANumber]
       case Some(p) => if p >= 0.0 then [] else [PriceNegative])
  }

  // ---------------------------------------------------------------------------
  // Files

  datatype LocalFile = LocalFile(name: string, size: int)

  /** The `file_url`, `file_size` and `file_format` columns, set together. */
  datatype FileFields = FileFields(url: string, size: int, format: string)

  /** `file.name.split('.').pop()`: the text after the last ".", or the whole
      name when there is none. */
  function FileExtension(name: string): (ext: string)
    ensures '.' !in ext
    ensures |ext| <= |name| && name[|name| - |ext|..] == ext
    ensures |ext| < |name| ==> name[|name| - |ext| - 1] == '.'
  {
    JsText.LastPiece(name, '.')
  }

  /** The storage object name: user id, "/", the millisecond clock, ".", extension. */
  function StoragePath(userId: string, now: nat, name: string): string {
    userId + "/" + JsText.DecimalString(now) + "." + FileExtension(name)
  }

  /** The name a download is offered under, `title.format`, gives back the
      extension this form stored as the file's format. */
  lemma DownloadNameKeepsStoredFormat(title: string, fileName: string)
    requires FileExtension(fileName) != ""
    ensures var format := FileExtension(fileName);
      FileExtension(OffersSection.DownloadFileName(title, Some(format))) == format
  {
    var format := FileExtension(fileName);
    assert OffersSection.DownloadFileName(title, Some(format)) == title + ['.'] + format;
    JsText.LastPieceAfter(title, '.', format);
  }

  /** The stored object keeps the file's extension. */
  lemma StoragePathKeepsExtension(userId: string, now: nat, name: string)
    ensures FileExtension(StoragePath(userId, now, name)) == FileExtension(name)
  {
    JsText.LastPieceAfter(userId + "/" + JsText.DecimalString(now), '.', FileExtension(name));
  }

  // ---------------------------------------------------------------------------
  // Form state and mutations

  /** A row of `offers` as this editor sees it. */
  datatype OfferRow = OfferRow(id: string, vendorId: Option<string>, title: string, description: string,
                               price: real, tags: seq<string>, file: Option<FileFields>)

  /** The editor's form: the text fields, the chosen file, the id of the offer
      being edited, and whether the dialog is open. */
  datatype Form = Form(title: string, description: string, price: string, tags: string,
                       file: Option<LocalFile>, editing: Option<string>, dialogOpen: bool)

  /** `resetForm` leaves the dialog flag alone. */
  function Reset(f: Form): (r: Form)
    ensures r.title == "" && r.description == "" && r.price == "0" && r.tags == ""
    ensures r.file.None? && r.editing.None? && r.dialogOpen == f.dialogOpen
  {
    Form("", "", "0", "", None, None, f.dialogOpen)
  }

  datatype OfferTables = OfferTables(offers: map<string, OfferRow>, logs: seq<LogEntry>, storage: set<string>)

  datatype SubmitEnv = SubmitEnv(
    parseFloat: string -> Option<real>,
    userId: Option<string>,
    now: nat,
    uploadError: Option<string>,
    publicUrl: string -> string,
    freshId: string,               // the id the database gives a new row
    writeError: Option<string>,    // the insert or update answers an error
    logFails: bool)

  datatype Dispatch = NoDispatch | CreateDispatch | UpdateDispatch

  /** Which mutation ran, whether it succeeded, and the message shown. */
  datatype Outcome = Outcome(dispatch: Dispatch, ok: bool, message: string)

  function ErrorText(message: string, default: string): string {
    if message == "" then default else message
  }

  /** The file fields after the upload step: an upload happens only with a
      chosen file and a signed-in user. */
  predicate Uploads(f: Form, env: SubmitEnv) {
    f.file.Some? && Present(env.userId)
  }

  function UploadPath(f: Form, env: SubmitEnv): string
    requires Uploads(f, env)
  {
    StoragePath(env.userId.value, env.now, f.file.value.name)
  }

  function NewFile(f: Form, env: SubmitEnv): Option<FileFields> {
    if Uploads(f, env) then
      Some(FileFields(env.publicUrl(UploadPath(f, env)), f.file.value.size, FileExtension(f.file.value.name)))
    else None
  }

  /** The update patch: text fields always, file fields only when a new file
      was uploaded (otherwise they are undefined and left out of the request). */
  function ApplyUpdate(row: OfferRow, title: string, description: string, price: real, tags: seq<string>,
                       file: Option<FileFields>): OfferRow {
    row.(title := title, description := description, price := price, tags := tags,
         file := if file.Some? then file else row.file)
  }

  function DraftOf(f: Form, env: SubmitEnv): OfferDraft {
    OfferDraft(f.title, f.description, env.parseFloat(f.price), f.tags)
  }

  predicate UploadFailed(f: Form, env: SubmitEnv) {
    Uploads(f, env) && env.uploadError.Some?
  }

  /** The storage after the upload step. */
  function Stored(f: Form, t: OfferTables, env: SubmitEnv): set<string> {
    if Uploads(f, env) then t.storage + {UploadPath(f, env)} else t.storage
  }

  /** The form after a successful mutation: reset, dialog closed. */
  function Closed(f: Form): Form {
    Reset(f).(dialogOpen := false)
  }

  /** The best-effort log insert. */
  function Logged(logs: seq<LogEntry>, env: SubmitEnv, action: string, message: string): seq<LogEntry> {
    if env.logFails then logs else logs + [LogEntry(env.userId, action, message)]
  }

  datatype Submitted = Submitted(outcome: Outcome, form: Form, tables: OfferTables)

  /** The create mutation, after the upload step. */
  function CreateStep(f: Form, t: OfferTables, env: SubmitEnv, price: real, tags: seq<string>,
                      file: Option<FileFields>): Submitted {
    if env.writeError.Some? || env.freshId in t.offers then
      Submitted(Outcome(CreateDispatch, false, ErrorText(env.writeError.GetOr(""), "Erreur lors de la création")), f, t)
    else
      var row := OfferRow(env.freshId, env.userId, f.title, f.description, price, tags, file);
      Submitted(Outcome(CreateDispatch, true, "Offre créée avec succès !"), Closed(f),
                OfferTables(t.offers[env.freshId := row], Logged(t.logs, env, "offer_created", "Offre créée: " + f.title), t.storage))
  }

  /** The update mutation, after the upload step; an id with no row changes nothing. */
  function UpdateStep(f: Form, t: OfferTables, env: SubmitEnv, id: string, price: real, tags: seq<string>,
                      file: Option<FileFields>): Submitted {
    if env.writeError.Some? then
      Submitted(Outcome(UpdateDispatch, false, ErrorText(env.writeError.value, "Erreur lors de la modification")), f, t)
    else
      var offers := if id in t.offers then t.offers[id := ApplyUpdate(t.offers[id], f.title, f.description, price, tags, file)]
                    else t.offers;
      Submitted(Outcome(UpdateDispatch, true, "Offre modifiée avec succès !"), Closed(f),
                OfferTables(offers, Logged(t.logs, env, "offer_updated", "Offre modifiée: " + f.title), t.storage))
  }

  /** The mutation a valid form dispatches once the upload step succeeded:
      create without an offer being edited, update with one. */
  function Proceed(f: Form, t: OfferTables, env: SubmitEnv): Submitted {
    var t1 := t.(storage := Stored(f, t, env));
    var price := env.parseFloat(f.price).GetOr(0.0);
    if f.editing.None? then CreateStep(f, t1, env, price, ParseTags(f.tags), NewFile(f, env))
    else UpdateStep(f, t1, env, f.editing.value, price, ParseTags(f.tags), NewFile(f, env))
  }

  /** `handleSubmit` and the mutation it dispatches. */
  function SubmitSpec(f: Form, t: OfferTables, env: SubmitEnv): Submitted {
    var issues := OfferIssues(DraftOf(f, env));
    if issues != [] then Submitted(Outcome(NoDispatch, false, issues[0]), f, t)
    else if UploadFailed(f, env) then
      Submitted(Outcome(if f.editing.Some? then UpdateDispatch else CreateDispatch, false,
                        "Erreur d'upload: " + env.uploadError.value), f, t)
    else Proceed(f, t, env)
  }

  class OfferEditor {
    var title: string
    var description: string
    var price: string
    var tags: string
    var file: Option<LocalFile>
    var editing: Option<string>
    var dialogOpen: bool
    var uploading: bool
    var offers: map<string, OfferRow>
    var logs: seq<LogEntry>
    var storage: set<string>

    function FormState(): Form
      reads this
    {
      Form(title, description, price, tags, file, editing, dialogOpen)
    }

    function Tables(): OfferTables
      reads this
    {
      OfferTables(offers, logs, storage)
    }

    constructor (t: OfferTables)
      ensures FormState() == Form("", "", "0", "", None, None, false) && Tables() == t && !uploading
    {
      title, description, price, tags := "", "", "0", "";
      file, editing, dialogOpen, uploading := None, None, false, false;
      offers, logs, storage := t.offers, t.logs, t.storage;
    }

    method ResetForm()
      modifies this
      ensures FormState() == Reset(old(FormState()))
      ensures Tables() == old(Tables()) && uploading == old(uploading)
    {
      title, description, price, tags := "", "", "0", "";
      file, editing := None, None;
    }

    /** `handleOpenChange`: closing the dialog resets the form. */
    method HandleOpenChange(open: bool)
      modifies this
      ensures FormState() == (if open then old(FormState()) else Reset(old(FormState()))).(dialogOpen := open)
      ensures Tables() == old(Tables()) && uploading == old(uploading)
    {
      if !open {
        ResetForm();
      }
      dialogOpen := open;
    }

    /** `handleEdit`: load an offer into the form; `priceText` is the price's
        `toString()`. The chosen file is left as it was. */
    method HandleEdit(offer: OfferRow, priceText: string)
      modifies this
      ensures FormState() == Form(offer.title, offer.description, priceText, JoinTags(offer.tags),
                                  old(file), Some(offer.id), true)
      ensures Tables() == old(Tables()) && uploading == old(uploading)
    {
      editing := Some(offer.id);
      title := offer.title;
      description := offer.description;
      price := priceText;
      tags := JsText.Join(offer.tags, ", ");
      dialogOpen := true;
    }

    /** `createMutation` after the upload; on success the form is reset and
        the dialog closed. */
    method Create(env: SubmitEnv, parsedPrice: real, parsedTags: seq<string>, newFile: Option<FileFields>)
      returns (outcome: Outcome)
      modifies this
      ensures Submitted(outcome, FormState(), Tables())
              == CreateStep(old(FormState()), old(Tables()), env, parsedPrice, parsedTags, newFile)
      ensures uploading == old(uploading)
    {
      if env.writeError.Some? || env.freshId in offers {
        return Outcome(CreateDispatch, false, ErrorText(env.writeError.GetOr(""), "Erreur lors de la création"));
      }
      offers := offers[env.freshId := OfferRow(env.freshId, env.userId, title, description, parsedPrice, parsedTags, newFile)];
      if !env.logFails {
        logs := logs + [LogEntry(env.userId, "offer_created", "Offre créée: " + title)];
      }
      outcome := Outcome(CreateDispatch, true, "Offre créée avec succès !");
      ResetForm();
      dialogOpen := false;
    }

    /** `updateMutation` after the upload. */
    method Update(env: SubmitEnv, id: string, parsedPrice: real, parsedTags: seq<string>, newFile: Option<FileFields>)
      returns (outcome: Outcome)
      modifies this
      ensures Submitted(outcome, FormState(), Tables())
              == UpdateStep(old(FormState()), old(Tables()), env, id, parsedPrice, parsedTags, newFile)
      ensures uploading == old(uploading)
    {
      if env.writeError.Some? {
        return Outcome(UpdateDispatch, false, ErrorText(env.writeError.value, "Erreur lors de la modification"));
      }
      if id in offers {
        offers := offers[id := ApplyUpdate(offers[id], title, description, parsedPrice, parsedTags, newFile)];
      }
      if !env.logFails {
        logs := logs + [LogEntry(env.userId, "offer_updated", "Offre modifiée: " + title)];
      }
      outcome := Outcome(UpdateDispatch, true, "Offre modifiée avec succès !");
      ResetForm();
      dialogOpen := false;
    }

    /** The upload step: with a chosen file and a signed-in user, store the
        file under its storage path and compute the file fields. */
    method Upload(env: SubmitEnv) returns (newFile: Option<FileFields>, failed: bool)
      modifies this
      ensures FormState() == old(FormState()) && offers == old(offers) && logs == old(logs)
      ensures failed <==> UploadFailed(old(FormState()), env)
      ensures failed ==> storage == old(storage)
      ensures !failed ==> newFile == NewFile(old(FormState()), env) && storage == Stored(old(FormState()), old(Tables()), env)
      ensures uploading == (old(uploading) && !Uploads(old(FormState()), env))
    {
      var f := FormState();
      newFile, failed := None, false;
      if Uploads(f, env) {
        uploading := true;
        if env.uploadError.Some? {
          uploading := false;
          return None, true;
        }
        storage := Stored(f, Tables(), env);
        newFile := NewFile(f, env);
        uploading := false;
      }
    }

    method HandleSubmit(env: SubmitEnv) returns (outcome: Outcome)
      modifies this
      ensures Submitted(outcome, FormState(), Tables()) == SubmitSpec(old(FormState()), old(Tables()), env)
      ensures uploading ==> old(uploading)
    {
      var draft := OfferDraft(title, description, env.parseFloat(price), tags);
      var issues := OfferIssues(draft);
      if issues != [] {
        return Outcome(NoDispatch, false, issues[0]);
      }
      ghost var f0, t0 := FormState(), Tables();
      var dispatch := if editing.Some? then UpdateDispatch else CreateDispatch;
      var newFile, failed := Upload(env);
      if failed {
        return Outcome(dispatch, false, "Erreur d'upload: " + env.uploadError.value);
      }
      assert Tables() == t0.(storage := Stored(f0, t0, env));
      var parsedTags := ParseTags(tags);
      if editing.None? {
        outcome := Create(env, draft.price.value, parsedTags, newFile);
      } else {
        outcome := Update(env, editing.value, draft.price.value, parsedTags, newFile);
      }
    }
  }

  // ---------------------------------------------------------------------------
  // Properties

  /** A draft the schema refuses shows its first issue and changes nothing;
      a valid one dispatches an update iff an offer is being edited. */
  lemma SubmitDispatch(f: Form, t: OfferTables, env: SubmitEnv)
    ensures var r := SubmitSpec(f, t, env);
      var issues := OfferIssues(DraftOf(f, env));
      && (issues != [] ==> r == Submitted(Outcome(NoDispatch, false, issues[0]), f, t))
      && (issues == [] ==> (r.outcome.dispatch == UpdateDispatch <==> f.editing.Some?) && r.outcome.dispatch != NoDispatch)
  {
  }

  /** An update without a newly chosen file keeps the offer's file URL, size
      and format, and takes the other fields from the form. */
  lemma UpdateKeepsFile(f: Form, t: OfferTables, env: SubmitEnv)
    requires f.editing.Some? && f.editing.value in t.offers && !Uploads(f, env)
    requires SubmitSpec(f, t, env).outcome.ok
    ensures var id := f.editing.value;
      var row := SubmitSpec(f, t, env).tables.offers[id];
      && row.file == t.offers[id].file
      && row.id == t.offers[id].id && row.vendorId == t.offers[id].vendorId && row.price == env.parseFloat(f.price).value
      && row.title == f.title && row.description == f.description && row.tags == ParseTags(f.tags)
  {
    assert OfferIssues(DraftOf(f, env)) == [] && !UploadFailed(f, env);
    var t1 := t.(storage := Stored(f, t, env));
    var price := env.parseFloat(f.price).GetOr(0.0);
    assert NewFile(f, env).None?;
    assert SubmitSpec(f, t, env) == UpdateStep(f, t1, env, f.editing.value, price, ParseTags(f.tags), None);
  }

  /** An update with a new file replaces all three file fields together. */
  lemma UpdateReplacesFile(f: Form, t: OfferTables, env: SubmitEnv)
    requires f.editing.Some? && f.editing.value in t.offers && Uploads(f, env)
    requires SubmitSpec(f, t, env).outcome.ok
    ensures var row := SubmitSpec(f, t, env).tables.offers[f.editing.value];
      row.file == Some(FileFields(env.publicUrl(UploadPath(f, env)), f.file.value.size, FileExtension(f.file.value.name)))
  {
    assert OfferIssues(DraftOf(f, env)) == [] && !UploadFailed(f, env);
  }

  /** A failed upload writes no offer and no log, and the form stays as it was. */
  lemma UploadFailureWritesNothing(f: Form, t: OfferTables, env: SubmitEnv)
    requires OfferIssues(DraftOf(f, env)) == []
    requires Uploads(f, env) && env.uploadError.Some?
    ensures var r := SubmitSpec(f, t, env);
      !r.outcome.ok && r.form == f && r.tables == t
  {
  }

  /** A successful mutation resets the form and closes the dialog; a failed
      one leaves the form for another attempt and writes no offer or log
      (an uploaded file stays in storage). */
  lemma SubmitResetsOnSuccess(f: Form, t: OfferTables, env: SubmitEnv)
    ensures var r := SubmitSpec(f, t, env);
      && (r.outcome.ok ==> r.form == Form("", "", "0", "", None, None, false))
      && (!r.outcome.ok ==> r.form == f && r.tables.offers == t.offers && r.tables.logs == t.logs)
  {
    var issues := OfferIssues(DraftOf(f, env));
    if issues == [] && !UploadFailed(f, env) {
      assert SubmitSpec(f, t, env) == Proceed(f, t, env);
      ProceedResets(f, t, env);
    }
  }

  /** The reset rule for the mutation step alone. */
  lemma ProceedResets(f: Form, t: OfferTables, env: SubmitEnv)
    ensures var r := Proceed(f, t, env);
      && (r.outcome.ok ==> r.form == Form("", "", "0", "", None, None, false))
      && (!r.outcome.ok ==> r.form == f && r.tables.offers == t.offers && r.tables.logs == t.logs)
  {
    var t1 := t.(storage := Stored(f, t, env));
    var price := env.parseFloat(f.price).GetOr(0.0);
    var tags := ParseTags(f.tags);
    var file := NewFile(f, env);
    if f.editing.None? {
      assert Proceed(f, t, env) == CreateStep(f, t1, env, price, tags, file);
    } else {
      assert Proceed(f, t, env) == UpdateStep(f, t1, env, f.editing.value, price, tags, file);
    }
  }

  /** Editing an offer with well-formed tags and submitting the form unchanged
      writes the same tags back. */
  lemma EditSubmitKeepsTags(offer: OfferRow, f: Form, t: OfferTables, env: SubmitEnv)
    requires forall i | 0 <= i < |offer.tags| :: WellFormedTag(offer.tags[i])
    requires f.editing == Some(offer.id) && f.tags == JoinTags(offer.tags) && offer.id in t.offers
    requires SubmitSpec(f, t, env).outcome.ok
    ensures SubmitSpec(f, t, env).tables.offers[offer.id].tags == offer.tags
  {
    assert OfferIssues(DraftOf(f, env)) == [] && !UploadFailed(f, env);
    TagsRoundTrip(offer.tags);
  }
}
