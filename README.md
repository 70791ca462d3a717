# Cheatplace studio: a verified model of the account, moderation and offer core

Cheatplace studio is a marketplace for game offers. It has a React front end and Supabase (Postgres plus
Deno edge functions) as its back end. Visitors browse offers and download their files. Vendors publish offers
from a dashboard. Administrators manage users, roles and bans. Accounts are guarded by e-mail verification codes,
by banned e-mail and banned IP lists, and by the `active` flag on each profile.

This project models that core in Dafny, one module per source file:

- `VerificationCodes`, `VerificationCodeProperties`: the verification-code store of the
  `send-verification-email` and `verify-code` edge functions. A code is issued (six digits, ten-minute lifetime,
  older pending codes of the same e-mail purged, compensation delete when the mail cannot be sent). It is then
  verified once.
- `BanUser`: the `ban-user` edge function. It checks the caller, checks the admin role, flips `profiles.active`,
  keeps `banned_emails` in step and writes an activity log row.
- `AuthContext`: the authentication provider in `src/lib/auth.tsx`. It covers role lookup, the banned-e-mail,
  banned-IP and inactive-account gates, login bookkeeping, the session listener, session restore and sign-out.
- `AuthPage`: the login and sign-up forms of `src/pages/Auth.tsx`. It covers their validation schemas, the order
  of their gates and the translation of error messages.
- `OffersSection`: the public offer list. It covers the media carousel, its navigation and the download handler
  that bumps counters and logs.
- `OffersManager`: the vendor editor for offers. It covers tag parsing and joining, the offer schema, the storage
  path of uploaded files, and create or update with optional upload.
- `UsersManager`: the admin user list. It covers merging roles into profiles, search, badges, the ban toggle,
  the role rewrite and the edit dialog.
- `NotifyNewOffer`: the `notify-new-offer` edge function. It builds the recipient list from the accounts the
  listing returns, splits it into BCC batches of 50 and sends one mail per batch.
- `UserStats`, `StatsOverview`, `Dashboard`, `Navbar`: the statistics pages, the dashboard access guard and its
  tabs, and the navigation bar.
- `Wrappers`, `Schema`, `JsText`, `Seqs`, `Arith`: shared helpers.
  - `Wrappers` holds an Option type and `Schema` the table rows.
  - `JsText` holds the JavaScript string primitives the code relies on: `includes`, `trim`, `split`, `join`,
    `toLowerCase` and decimal `toString`.
  - `Seqs` holds a sequence filter, and `Arith` holds arithmetic facts.

Database tables are values. A store with state (a table set, a form, a page) is a `class`, and its handler
methods are proved equal to a pure specification function of the old state. The lemmas about those functions
carry the properties. Everything the code asks of the outside world becomes a parameter of the call:
- the clock and the random draw;
- the result of each Supabase or Resend call;
- the client IP;
- `parseFloat`, the zod e-mail check, `encodeURIComponent` and the storage public URL.

A failure of any of these is a boolean or an error field. Where the code reads a failed lookup as an empty
answer, the model does the same:
- a failed read of the profile's `active` flag counts as active (`activeReadFails`);
- a failed user-name lookup counts as a free name (`usernameLookupFails`);
- a failed ban-table lookup counts as not banned.

## Model

| member | source | states |
|---|---|---|
| VerificationCodes.GenerateCode | supabase/functions/send-verification-email/index.ts:17-19 | the code has exactly six decimal digits and its value is 100000 plus the draw, so it lies in 100000..999999 |
| VerificationCodes.Intro | supabase/functions/send-verification-email/index.ts:85 | the login intro is used exactly when the code type is "login", and the sign-up intro otherwise |
| VerificationCodes.CodeStore.Issue | supabase/functions/send-verification-email/index.ts:22-151 | the status, the attempted mail and the new record list are those of the issue specification; the record invariants are kept |
| VerificationCodes.CodeStore.Verify | supabase/functions/verify-code/index.ts:17-75 | the status and the new record list are those of the verify specification; the record invariants are kept |
| VerificationCodes.AppendFreshKeepsUniqueIds | supabase/functions/send-verification-email/index.ts:58-73 | appending a record whose id is not in use keeps record ids unique |
| VerificationCodes.MarkVerifiedKeepsIds | supabase/functions/verify-code/index.ts:56-66 | marking a record verified keeps record ids unique |
| VerificationCodes.LiveStep | supabase/functions/verify-code/index.ts:35-45 | the lookup over one more row is the lookup over the others, followed by that row exactly when it is live |
| VerificationCodeProperties.IssueStatusCodes | supabase/functions/send-verification-email/index.ts:22-151 | 400 exactly for a malformed body, which changes nothing; 502 exactly when the mail service is unreachable; 200 exactly when the mail is delivered; no other status than 200, 400, 500 and 502 |
| VerificationCodeProperties.PurgeUnverifiedEffect | supabase/functions/send-verification-email/index.ts:50-56 | the purge keeps exactly the records that are not unverified codes of that e-mail |
| VerificationCodeProperties.IssueSuccess | supabase/functions/send-verification-email/index.ts:47-73 | on 200 the store is the purged store plus one unverified record for that e-mail and type, expiring ten minutes after now, with a six-digit code; the mail carries that code |
| VerificationCodeProperties.IssueInsertFailure | supabase/functions/send-verification-email/index.ts:66-73 | a failed insert answers 500, sends nothing and leaves only the purge |
| VerificationCodeProperties.RemoveAppended | supabase/functions/send-verification-email/index.ts:128-133 | deleting the id just inserted gives back the store as it was before the insert |
| VerificationCodeProperties.IssueCompensation | supabase/functions/send-verification-email/index.ts:125-140 | when the mail is not delivered and the compensating delete succeeds, the answer is 500 or 502 and the new record is gone |
| VerificationCodeProperties.IssueKeepsUniqueIds | supabase/functions/send-verification-email/index.ts:58-73 | every outcome of an issue keeps record ids unique |
| VerificationCodeProperties.IssueKeepsOnePending | supabase/functions/send-verification-email/index.ts:50-73 | when the purge succeeds, each e-mail keeps at most one unverified code |
| VerificationCodeProperties.VerifyStatusCodes | supabase/functions/verify-code/index.ts:17-75 | a malformed body gives 400; every failure changes nothing; 200 exactly when exactly one live record matches and the update succeeds; no match gives 400; a lookup error or several matches give 500 |
| VerificationCodeProperties.VerifyNeedsLiveRecord | supabase/functions/verify-code/index.ts:35-54 | success implies a record with that e-mail, code and type that is unverified and not expired |
| VerificationCodeProperties.VerifyMarksOnlyMatch | supabase/functions/verify-code/index.ts:56-68 | success marks exactly the matching live record verified and leaves every other record unchanged |
| VerificationCodeProperties.VerifySingleUse | supabase/functions/verify-code/index.ts:35-68 | the same code presented again, at the same time or later, never succeeds a second time |
| VerificationCodeProperties.VerifyKeepsInvariants | supabase/functions/verify-code/index.ts:56-66 | verification keeps ids unique and keeps at most one pending code per e-mail |
| VerificationCodeProperties.AtMostOneLive | supabase/functions/verify-code/index.ts:35-45 | with at most one pending code per e-mail, the lookup finds at most one live record |
| VerificationCodeProperties.VerifySucceedsIffLive | supabase/functions/verify-code/index.ts:35-68 | under that invariant, and with the database reachable, verification succeeds exactly when a live matching record exists |
| VerificationCodeProperties.IssueThenVerify | supabase/functions/send-verification-email/index.ts:47-73 | after a successful issue, verification succeeds exactly when the issued code and type are presented before expiry |
| VerificationCodeProperties.OnlyNewRecordLive | supabase/functions/send-verification-email/index.ts:50-73 | after the purge and the insert, a lookup for that e-mail can find only the new record |
| BanUser.BanTables.Handle | supabase/functions/ban-user/index.ts:25-133 | status and new tables are those of the ban specification |
| BanUser.BanStatusCodes | supabase/functions/ban-user/index.ts:25-133 | 401 exactly without a header or caller; 403 exactly for a caller who is not an admin; 400 exactly for a missing userId; 404 exactly for an unknown target; 200 exactly otherwise unless the profile update fails; every error leaves the tables unchanged |
| BanUser.AuthorisationBeforeBody | supabase/functions/ban-user/index.ts:34-64 | an unauthorised call answers 401 or 403 whatever its body |
| BanUser.BanSuccess | supabase/functions/ban-user/index.ts:77-126 | on 200 only the target profile changes, its active flag becomes the negation of ban, and one log row with the ban or unban action is appended unless logging fails |
| BanUser.BannedEmailsEffect | supabase/functions/ban-user/index.ts:91-110 | a ban adds the target's e-mail to the banned list and an unban removes it; other e-mails are unaffected |
| BanUser.BanIdempotent | supabase/functions/ban-user/index.ts:77-110 | banning twice leaves profiles and banned e-mails as banning once |
| BanUser.BanThenUnban | supabase/functions/ban-user/index.ts:77-110 | unbanning after a ban succeeds, removes the e-mail from the banned list and reactivates the profile |
| AuthContext.LowestRole | src/lib/auth.tsx:27-46 | none exactly when the user has no role row; otherwise one of the user's roles, and the lowest in enum order |
| AuthContext.FetchRole | src/lib/auth.tsx:27-46 | a lookup error or no row gives client; otherwise the user's lowest role in enum order (client, vendor, admin) |
| AuthContext.FetchRoleSingleRow | src/lib/auth.tsx:27-46 | a user whose rows all hold the same role gets that role |
| AuthContext.CheckUserActive | src/lib/auth.tsx:78-85 | a user counts as inactive exactly when the read works, a profile exists and its active flag is false; a failed read or a missing profile counts as active |
| AuthContext.CheckBannedIp | src/lib/auth.tsx:68-76 | an IP counts as banned exactly when it is non-empty and in the banned list |
| AuthContext.IpBanned | src/lib/auth.tsx:68-76 | the IP gate fires only for a known client IP that is on the banned list |
| AuthContext.AuthProvider.SignIn | src/lib/auth.tsx:165-226 | the error and the new back-end state are those of the sign-in specification, including the separate read of the login count and its fallback to 0; the provider's user, session, role and loading flag are untouched |
| AuthContext.AuthProvider.OnAuthStateChange | src/lib/auth.tsx:89-131 | sign-out clears the user, session and role and ends loading; a user rejected by a gate is signed out and loading keeps its value; an admitted user is stored with the role fetched for them |
| AuthContext.AuthProvider.RestoreSession | src/lib/auth.tsx:133-160 | loading always ends; a rejected user's session is cleared; an admitted user is stored with their role |
| AuthContext.AuthProvider.SignOut | src/lib/auth.tsx:252-273 | the role and auth session are cleared, and a logout row is appended when a user was signed in and logging works |
| AuthContext.BannedEmailFirst | src/lib/auth.tsx:167-171 | a banned e-mail is refused with the banned-account message, whatever the password and IP, and nothing changes |
| AuthContext.UnknownIpSkipsCheck | src/lib/auth.tsx:173-180 | without a client IP the banned-IP list has no influence |
| AuthContext.BannedIpBeforePassword | src/lib/auth.tsx:173-187 | a banned IP is refused before the password is checked, and nothing changes |
| AuthContext.InactiveUserSignedOut | src/lib/auth.tsx:189-196 | a correct password for an inactive profile is refused and its session signed out again when the active read works; when that read fails the sign-in succeeds with the profile still inactive |
| AuthContext.LoginBookkeeping | src/lib/auth.tsx:198-219 | a successful login writes the login_count it read plus one, or 1 when that read fails; it sets last_login and ip_last_login for that profile only and appends one login log row |
| AuthContext.SignInFailures | src/lib/auth.tsx:165-226 | sign-in fails exactly on a banned e-mail, a banned IP, a rejected password, or an inactive profile whose active read works; a failure writes neither profiles nor logs |
| AuthContext.AdmitGateOrder | src/lib/auth.tsx:89-131 | a missing profile or a failed active read is never treated as inactive; an inactive profile whose read works is always rejected as inactive; a user is admitted exactly when the active check passes, with an unbanned e-mail and an unbanned IP |
| AuthPage.LoginIssues | src/pages/Auth.tsx:14-17 | no issue exactly when the e-mail is valid and the password has at least six characters; an invalid e-mail is reported first |
| AuthPage.SignupIssues | src/pages/Auth.tsx:19-27 | no issue exactly when the username has 3..50 characters, the e-mail is valid, the password has at least six characters and the confirmation matches; a short username is reported first |
| AuthPage.MismatchReportedLast | src/pages/Auth.tsx:19-27 | a password mismatch is the first issue shown exactly when every other field is valid |
| AuthPage.LoginErrorText | src/pages/Auth.tsx:107-115 | the invalid-credentials message is translated, any other non-empty message is shown as is, and the text is never empty |
| AuthPage.SignupErrorText | src/pages/Auth.tsx:169-179 | already-registered and duplicate-key messages are translated in that order, any other non-empty message is shown as is, and the text is never empty |
| AuthPage.AuthForm.HandleLogin | src/pages/Auth.tsx:98-126 | the outcome is the login specification's and loading ends |
| AuthPage.AuthForm.HandleSignup | src/pages/Auth.tsx:128-190 | the outcome is the sign-up specification's and loading ends |
| AuthPage.SignupGateOrder | src/pages/Auth.tsx:128-190 | sign-up completes exactly when the schema, the IP ban, the e-mail ban, the username check (passed by a free name or a failed lookup) and the service all pass; a schema issue short-circuits every later check and its first message is shown |
| AuthPage.IpBanBeforeEmailBan | src/pages/Auth.tsx:143-149 | a banned IP is reported, and the service not called, before the e-mail ban is looked at |
| AuthPage.UsernameExists | src/pages/Auth.tsx:78-86 | a name counts as taken exactly when the lookup works and finds it |
| AuthPage.TakenUsernameNeverSignsUp | src/pages/Auth.tsx:160-166 | a taken username never reaches the sign-up service when the lookup works; when the lookup fails, a form that clears the other gates reaches it |
| AuthPage.LoginOutcomes | src/pages/Auth.tsx:98-126 | the service is called exactly for valid input, the user goes home exactly when it also succeeds, and its error is shown translated |
| AuthPage.CredentialsMessageTranslated | src/pages/Auth.tsx:107-109 | a message about invalid credentials is never shown verbatim |
| OffersSection.MediaItems | src/components/OffersSection.tsx:131-150 | at most two items are added to the offer's own media; the preview image and the video of a video offer are always present; every item comes from the offer |
| OffersSection.WithPreview | src/components/OffersSection.tsx:131-150 | the preview image is put in front exactly when it is present and not already listed, ahead of the offer's own media in their order |
| OffersSection.MediaItemsDistinct | src/components/OffersSection.tsx:131-150 | when the offer's media URLs are distinct, the carousel never shows a URL twice |
| OffersSection.GetMediaItems | src/components/OffersSection.tsx:131-150 | the loop builds exactly the item list |
| OffersSection.NavigationWraps | src/components/OffersSection.tsx:157-167 | next and previous stay in range, are addition and subtraction modulo the item count, and undo each other |
| OffersSection.NextTimesRotates | src/components/OffersSection.tsx:163-167 | pressing next k times moves k places modulo the item count |
| OffersSection.OfferViewer.Open | src/components/OffersSection.tsx:152-155 | opening an offer selects it and shows its first item |
| OffersSection.OfferViewer.Next | src/components/OffersSection.tsx:163-167 | the index advances by one with wrap-around, and the selection is kept |
| OffersSection.OfferViewer.Prev | src/components/OffersSection.tsx:157-161 | the index goes back by one with wrap-around, and the selection is kept |
| OffersSection.DownloadFileName | src/components/OffersSection.tsx:72-76 | the file name is the title, followed by a dot and the format when one is known |
| OffersSection.DownloadUrl | src/components/OffersSection.tsx:72-76 | the link is the file URL, then `&` if it already has a query or `?` if not, then `download=` and the encoded name |
| OffersSection.DownloadUrlHasQuery | src/components/OffersSection.tsx:72-76 | every download link carries a query string |
| OffersSection.DownloadService.HandleDownload | src/components/OffersSection.tsx:22-105 | the link and the new tables are those of the download specification |
| OffersSection.NoFileNoEffect | src/components/OffersSection.tsx:23-25 | an offer without a file gives no link and changes nothing |
| OffersSection.CounterFailureStillDownloads | src/components/OffersSection.tsx:32-37 | a failing counter update still gives the link, and the count does not change |
| OffersSection.SignedInDownload | src/components/OffersSection.tsx:32-70 | a signed-in download increments the offer's count once, records the download row and appends a log row |
| OffersManager.TrimAll | src/components/dashboard/OffersManager.tsx:221 | each piece is trimmed, in place |
| OffersManager.CleanPieces | src/components/dashboard/OffersManager.tsx:221 | the tags kept are non-empty and trimmed |
| OffersManager.ParseTags | src/components/dashboard/OffersManager.tsx:221 | every parsed tag is non-empty and has no surrounding blanks |
| OffersManager.JoinSpaced | src/components/dashboard/OffersManager.tsx:241 | the comma join of the spaced tags is the ", " join of the tags, with the lead prepended |
| OffersManager.SplitJoinTags | src/components/dashboard/OffersManager.tsx:221-241 | splitting a ", " join on commas gives the tags with a leading blank on all but the first |
| OffersManager.TrimSpacedPiece | src/components/dashboard/OffersManager.tsx:221-241 | trimming a spaced piece restores the tag |
| OffersManager.CleanSpaced | src/components/dashboard/OffersManager.tsx:221-241 | cleaning the spaced pieces of well-formed tags gives the tags back |
| OffersManager.TagsRoundTrip | src/components/dashboard/OffersManager.tsx:221-241 | parsing the text the editor shows for well-formed tags gives back exactly those tags |
| OffersManager.CleanPiecesKeepOut | src/components/dashboard/OffersManager.tsx:221 | cleaning never introduces a character that no piece had |
| OffersManager.ParseTagsStable | src/components/dashboard/OffersManager.tsx:221-241 | join then parse is the identity on any parsed tag list, so re-saving an unchanged tag field changes nothing |
| OffersManager.TrimKeepsOut | src/components/dashboard/OffersManager.tsx:221 | trimming never introduces a character |
| OffersManager.OfferIssues | src/components/dashboard/OffersManager.tsx:16-21 | no issue exactly when the title has 3..100 characters, the description 10..1000, and the price is a number of at least zero; a short title is reported first |
| OffersManager.FileExtension | src/components/dashboard/OffersManager.tsx:59 | the extension is the text after the last dot, or the whole name when there is no dot |
| OffersManager.StoragePathKeepsExtension | src/components/dashboard/OffersManager.tsx:59-60 | the storage path keeps the uploaded file's extension |
| OffersManager.DownloadNameKeepsStoredFormat | src/components/OffersSection.tsx:72-76 | the download name, title plus "." plus the stored format, gives back through `split('.').pop()` the extension the editor stored as file_format (OffersManager.tsx line 59) |
| OffersManager.Reset | src/components/dashboard/OffersManager.tsx:197-204 | reset empties every field, sets the price to "0", clears file and editing, and keeps the dialog state |
| OffersManager.OfferEditor.ResetForm | src/components/dashboard/OffersManager.tsx:197-204 | the form becomes its reset and nothing else changes |
| OffersManager.OfferEditor.HandleOpenChange | src/components/dashboard/OffersManager.tsx:245-250 | closing resets the form, opening keeps it, and the dialog flag follows |
| OffersManager.OfferEditor.HandleEdit | src/components/dashboard/OffersManager.tsx:236-243 | the form is filled from the offer, with the tags joined by ", " and the dialog open |
| OffersManager.OfferEditor.Create | src/components/dashboard/OffersManager.tsx:76-109 | outcome, form and tables are those of the create step |
| OffersManager.OfferEditor.Update | src/components/dashboard/OffersManager.tsx:111-172 | outcome, form and tables are those of the update step |
| OffersManager.OfferEditor.Upload | src/components/dashboard/OffersManager.tsx:57-74 | the upload fails exactly when the storage call fails, which stores nothing; otherwise the file is stored under its path and its fields are returned |
| OffersManager.OfferEditor.HandleSubmit | src/components/dashboard/OffersManager.tsx:206-234 | outcome, form and tables are those of the submit specification |
| OffersManager.SubmitDispatch | src/components/dashboard/OffersManager.tsx:206-234 | a schema issue changes nothing and its first message is shown; valid input is dispatched to update exactly when an offer is being edited |
| OffersManager.UpdateKeepsFile | src/components/dashboard/OffersManager.tsx:111-152 | an update without a new file keeps the offer's id, vendor and file fields and writes title, description, parsed price and parsed tags |
| OffersManager.UpdateReplacesFile | src/components/dashboard/OffersManager.tsx:113-148 | an update with a new file stores its public URL, size and extension |
| OffersManager.UploadFailureWritesNothing | src/components/dashboard/OffersManager.tsx:57-74 | a failed upload leaves form and tables unchanged and reports failure |
| OffersManager.SubmitResetsOnSuccess | src/components/dashboard/OffersManager.tsx:102-170 | success closes and resets the form; failure keeps the form, the offers and the logs |
| OffersManager.ProceedResets | src/components/dashboard/OffersManager.tsx:102-170 | after the upload step, a successful create or update resets and closes the form, and a failed one keeps the form, the offers and the logs |
| OffersManager.EditSubmitKeepsTags | src/components/dashboard/OffersManager.tsx:221-243 | editing an offer and saving it without touching the tag field keeps its tags |
| UsersManager.FirstRowIndex | src/components/dashboard/UsersManager.tsx:54-65 | the index is the first role row of that user, or the row count when there is none |
| UsersManager.Merge | src/components/dashboard/UsersManager.tsx:38-69 | one entry per profile, in profile order, with the profile's id |
| UsersManager.MergeRoles | src/components/dashboard/UsersManager.tsx:54-65 | each entry keeps its profile's fields and takes the role of that user's first role row, or client without one |
| UsersManager.Search | src/components/dashboard/UsersManager.tsx:227-231 | the search never lists more users than there are |
| UsersManager.SearchMembership | src/components/dashboard/UsersManager.tsx:227-231 | a user is listed exactly when they are in the list and their username or id contains the term, ignoring case |
| UsersManager.SearchEmptyTerm | src/components/dashboard/UsersManager.tsx:227-231 | an empty term lists everybody in order |
| UsersManager.SearchIgnoresCase | src/components/dashboard/UsersManager.tsx:227-231 | lower-casing the term changes nothing |
| UsersManager.SearchFindsById | src/components/dashboard/UsersManager.tsx:227-231 | searching for a user's id always finds that user |
| UsersManager.BadgeVariant | src/components/dashboard/UsersManager.tsx:233-242 | destructive exactly for admins, default exactly for vendors, secondary exactly for clients |
| UsersManager.ToggleBanFlips | src/components/dashboard/UsersManager.tsx:124-131 | the toggle bans exactly the active users, and after success the profile's active flag is flipped |
| UsersManager.ToggleToastInverted | src/components/dashboard/UsersManager.tsx:133-135 | as written, banning an active user shows the unban message |
| UsersManager.ToggleToast | src/components/dashboard/UsersManager.tsx:133-135 | the success message names the action actually requested: banned exactly for an active user |
| UsersManager.UpdateRoleSingleRow | src/components/dashboard/UsersManager.tsx:100-122 | after a successful role change the user has exactly one role row, the new one, other users' rows are unchanged, and the role lookup returns the new role |
| UsersManager.UpdateRoleInsertFails | src/components/dashboard/UsersManager.tsx:100-122 | a failed insert after the delete reports its error and leaves the user with no role row |
| UsersManager.SaveRoleOnlyWhenChanged | src/components/dashboard/UsersManager.tsx:194-212 | the role is rewritten exactly when the profile save succeeds and the role changed; otherwise the role tables stay as they were |
| UsersManager.SaveClosesOnSuccess | src/components/dashboard/UsersManager.tsx:194-212 | the dialog closes exactly when every requested write succeeds; the profile gets the new username and the active flag shown in the list |
| UsersManager.UsersPage.HandleEdit | src/components/dashboard/UsersManager.tsx:187-192 | the dialog opens on that user with their username and role |
| UsersManager.UsersPage.UpdateRole | src/components/dashboard/UsersManager.tsx:100-122 | error and tables are those of the role rewrite specification |
| UsersManager.UsersPage.HandleSave | src/components/dashboard/UsersManager.tsx:194-212 | toasts, the role request, the editor and the tables are those of the save specification |
| NotifyNewOffer.Recipients | supabase/functions/notify-new-offer/index.ts:38-40 | the recipients are the non-empty e-mails of the accounts |
| NotifyNewOffer.RecipientsAppend | supabase/functions/notify-new-offer/index.ts:38-40 | recipients are computed account by account, in order |
| NotifyNewOffer.RecipientsMembership | supabase/functions/notify-new-offer/index.ts:38-40 | an address is a recipient exactly when some account has it and it is non-empty |
| NotifyNewOffer.RecipientsNone | supabase/functions/notify-new-offer/index.ts:38-47 | accounts without an e-mail give no recipient |
| NotifyNewOffer.BatchesConcat | supabase/functions/notify-new-offer/index.ts:50-55 | the batches, put back together, are the recipient list |
| NotifyNewOffer.BatchesShape | supabase/functions/notify-new-offer/index.ts:50-55 | there are ceil(n/50) batches of 1..50 addresses, all full but the last |
| NotifyNewOffer.MakeBatches | supabase/functions/notify-new-offer/index.ts:50-55 | the loop builds exactly the batches |
| NotifyNewOffer.Snippet | supabase/functions/notify-new-offer/index.ts:93 | a description of at most 200 characters is kept; a longer one is cut to its first 200 characters followed by "..." |
| NotifyNewOffer.Mails | supabase/functions/notify-new-offer/index.ts:57-117 | one mail per batch, in order, with the batch as BCC |
| NotifyNewOffer.Mailer.Handle | supabase/functions/notify-new-offer/index.ts:17-135 | the status and the mails sent are those of the notify specification, appended to the outbox; a send that throws stops the loop with 500 after the earlier batches |
| NotifyNewOffer.SentIsPrefixOfFullRun | supabase/functions/notify-new-offer/index.ts:57-135 | whichever send throws, the mails sent are the first ones of the full run, and the answer is 200 exactly when the full run went out (otherwise 500) |
| NotifyNewOffer.ThrowingSendStopsRun | supabase/functions/notify-new-offer/index.ts:57-135 | a send that throws at batch k answers 500 after exactly the first k batches were mailed |
| NotifyNewOffer.NoRecipientsNoMail | supabase/functions/notify-new-offer/index.ts:42-47 | without any e-mail the answer is 200 and no mail is sent |
| NotifyNewOffer.OneMailPerBatch | supabase/functions/notify-new-offer/index.ts:50-117 | a successful run sends ceil(n/50) mails whose BCC lists are the batches, covering every recipient exactly once |
| UserStats.TotalDownloads | src/pages/UserStats.tsx:67 | the total is the number of download rows, or zero without data |
| UserStats.OfferIds | src/pages/UserStats.tsx:66 | the set holds exactly the offer ids of the rows |
| UserStats.DistinctTail | src/pages/UserStats.tsx:66 | dropping the first download keeps distinct offers distinct |
| UserStats.DistinctCons | src/pages/UserStats.tsx:66 | a first download of a new offer keeps distinct offers distinct |
| UserStats.RepeatedFirst | src/pages/UserStats.tsx:66 | a first download of an offer downloaded again later adds no id and makes the offers not distinct |
| UserStats.OfferIdsSize | src/pages/UserStats.tsx:66 | there are never more distinct offers than rows, and as many exactly when no offer repeats |
| UserStats.UniqueAtMostTotal | src/pages/UserStats.tsx:66-67 | unique downloads never exceed total downloads, and equal them exactly when no offer is downloaded twice |
| UserStats.LoginCount | src/pages/UserStats.tsx:107 | the login count is the profile's, or zero without a profile |
| UserStats.RedirectIffBlank | src/pages/UserStats.tsx:14-18 | the page redirects to /auth exactly when loading is over and there is no user, which is exactly when it renders nothing |
| StatsOverview.TotalDownloads | src/components/dashboard/StatsOverview.tsx:17 | no data gives zero downloads |
| StatsOverview.SumAppend | src/components/dashboard/StatsOverview.tsx:17 | the sum adds up across a split of the offers |
| StatsOverview.NullCountsAsZero | src/components/dashboard/StatsOverview.tsx:17 | a null count adds zero |
| StatsOverview.SumBounds | src/components/dashboard/StatsOverview.tsx:17 | with non-negative counts the total is at least each offer's count |
| StatsOverview.SumNonNegative | src/components/dashboard/StatsOverview.tsx:17 | with non-negative counts the total is non-negative |
| StatsOverview.CountOrZero | src/components/dashboard/StatsOverview.tsx:20-22 | a missing count shows as zero |
| StatsOverview.Round | src/components/dashboard/StatsOverview.tsx:101 | the rounded value is within a half of the input, halves going up |
| StatsOverview.FloorOfQuotient | src/components/dashboard/StatsOverview.tsx:101 | the floor of a real quotient by a positive divisor is the integer quotient |
| StatsOverview.AverageIsDivision | src/components/dashboard/StatsOverview.tsx:100-102 | the average downloads per offer is total/offers rounded half up, computed in integers |
| StatsOverview.Engagement | src/components/dashboard/StatsOverview.tsx:108-110 | the engagement text is a number followed by '%' |
| StatsOverview.EngagementIsAverage | src/components/dashboard/StatsOverview.tsx:108-110 | with no users it is "0%"; otherwise it is 100 times total over users, rounded, followed by '%' |
| StatsOverview.EmptyTablesShowZero | src/components/dashboard/StatsOverview.tsx:100-110 | with no users and no offers both the average and the engagement show zero |
| Dashboard.Tabs | src/pages/Dashboard.tsx:52-99 | the tabs start with statistics and end with logs, with at least four of them |
| Dashboard.AccessRule | src/pages/Dashboard.tsx:17-36 | the dashboard shows exactly for a signed-in vendor or admin once loading is over; it redirects home exactly when it renders nothing; while loading it shows the loader and never redirects |
| Dashboard.UsersTabIffAdmin | src/pages/Dashboard.tsx:66-94 | the users tab is present exactly for admins |
| Dashboard.FetchedRoleAccess | src/pages/Dashboard.tsx:17-36 | with the role the provider fetched, access is granted exactly when the lookup works and the user has role rows, none of them client |
| Navbar.DisplayName | src/components/Navbar.tsx:38 | the name is never empty and is the username when there is one |
| Navbar.DisplayNameFallback | src/components/Navbar.tsx:38 | without a username the name is the e-mail's part before the first '@', or "User" when that part is empty |
| Navbar.RoleLabel | src/components/Navbar.tsx:67 | the role label is the role's name, or "client" before the role is known |
| Navbar.MenuRules | src/components/Navbar.tsx:54-91 | the login button shows exactly without a user; for a user the dashboard item shows exactly when the dashboard grants access |

## Left out

- I/O is not modelled. The HTTP transport, CORS headers and OPTIONS pre-flights, Resend's and Supabase's
  network calls, and every React rendering detail outside the states above are parameters or absent. The same
  goes for toasts other than their text, and for React Query cache invalidation.
- `Math.random` is not modelled; the draw is a parameter in 0..899999. `Date.now()` and ISO timestamps are
  integers in milliseconds, passed in.
- Concurrency is not modelled. Each handler runs to completion before the next, and realtime subscriptions
  are absent.
- Floating point is not modelled: prices, file sizes and the statistics averages are exact reals or integers.
  `formatFileSize` in src/components/OffersSection.tsx is not modelled because it only formats floats.
- StatsOverview.EngagementIsAverage: Math.round is applied to an exact quotient. The float rounding of
  total/users*100 is not modelled.
- String lengths count characters, not UTF-16 code units. `toLowerCase` is modelled on ASCII letters only.
- `parseFloat`, `encodeURIComponent`, zod's e-mail validator and the storage public URL are opaque parameters.
- OffersSection.DownloadService.HandleDownload: `encodeURIComponent` is total in the model. In JavaScript it
  throws on a lone surrogate. The source's catch then shows "Erreur lors du téléchargement" after the counter,
  download row and log were written, and follows no link. That path is not modelled.
- BanUser.BanTables.Handle: the `banned_emails` insert also writes `banned_by` and `reason`
  (supabase/functions/ban-user/index.ts:91-98). The model keeps the banned e-mails as a set, so those columns
  are dropped. A duplicate ban keeps the first row's `banned_by`, which the model does not record.
- The optional console and log metadata fields (IP, user agent and details in logs) are not modelled. Log rows
  carry the user, action and message.
- AuthContext.FetchRole: the source orders by the `role` column of the Postgres `app_role` enum. That is enum
  declaration order (client, vendor, admin), and the model follows it rather than alphabetical order.
- The `setTimeout` deferral of the role fetch in the auth listener is not modelled; the role is fetched in the
  same step.
- AuthContext.AuthProvider.RestoreSession: the source does not await `fetchRole` (src/lib/auth.tsx:156), so
  `loading` becomes false before the role arrives. In that window the dashboard redirects a vendor home. The
  model stores the role in the same step as `loading := false`, so it does not capture that window.
- A failing lookup of the banned e-mail or banned IP table counts as "not banned", as in the source. There is no
  separate error path for it.
- `signUp` in src/lib/auth.tsx passes its arguments through to Supabase. It is modelled only by its error
  message, as a parameter of the sign-up form. `checkEmailExists` is not part of this model.
- The offer delete mutation (src/components/dashboard/OffersManager.tsx:174-195) is not modelled. It deletes one
  row and logs, with no branch worth a property.
- The ban-IP and unban-IP mutations and `handleBanUserIp` (src/components/dashboard/UsersManager.tsx:142-185,
  218-225) are not modelled. They mirror the e-mail ban over a list of IPs.
- NotifyNewOffer.Mailer.Handle does not model the text of the response message or the per-batch `results`
  array. A Resend answer that reports an error is collected without being checked and does not change the
  status. A send that throws is modelled: the run stops with 500 after the earlier batches.
- NotifyNewOffer.NotifySpec: the account listing is called without paging arguments
  (supabase/functions/notify-new-offer/index.ts:31), so it answers only its first page. With the client's
  default page size of 50 users, accounts past the first page are not notified. `accounts` is that page, as
  the listing returns it. The model does not follow further pages, because the source does not.
- The notify-new-offer function checks neither its caller nor any role, as in the source. The model keeps that.
  A missing title appears as "undefined" in the subject, as JavaScript string interpolation does.
- UsersManager.SaveClosesOnSuccess: the profile update writes back the `active` flag shown in the list. When a
  ban happened after the list was loaded, that stale value is written, as in the source.

## Findings

| source | as written | input that shows it | evidently intended | confidence | as-written member | corrected member |
|---|---|---|---|---|---|---|
| src/components/dashboard/UsersManager.tsx:124-135 | `handleToggleBan` passes `active: !user.active`. The request body is `ban: !active`, which is `ban: user.active`, so the request itself is right. The success toast tests `variables.active`, which is the negated flag, so it shows "Utilisateur débanni" when banning and "Utilisateur banni" when unbanning. | an active user whose ban toggle is pressed: the user is banned and the toast says "Utilisateur débanni" | the toast names the action performed: "Utilisateur banni" for a ban | high; not executed | UsersManager.ToggleToastInverted | UsersManager.ToggleToast |
