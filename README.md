# HealthLife consultations in Dafny

HealthLife is a telehealth service. Patients sign up by an e-mailed one-time code, log in, and
open a free 24-hour text consultation with an available doctor. Doctors sign up the same way,
keep a profile, toggle their availability and reply to consultations from a dashboard. An admin
logs in with configured credentials, adds doctors, edits their profiles and sees all
consultations.

This project models the core of that service:

- the Express handlers of the patient, doctor and admin controllers;
- the three JWT guards in front of them;
- the chat and doctor records;
- the client-side logic of the two chat screens: the optimistic message list, the expiry gate,
  the message box and the countdown banner;
- the age helper of the admin portal;
- the FAQ section of the patient site.

How it is organised:

- **Handlers as functions.** Each handler is a pure function from the collections it reads and
  the request fields to a reply (`Http.Response`: status, `success`, message, data) and the
  collection it writes (`Http.Outcome`).
- **The database as a class.** `Server.Database` is a class over the three collections. Each of
  its methods runs one handler that writes the store, in place, and keeps the store's invariants.
  The doctor's reset request runs in its corrected form (see Findings); the form as written is
  `DoctorController.RequestDoctorPasswordReset`. The invariants:
  - e-mails are unique;
  - ids are positional (below);
  - every chat names a patient and a doctor that exist.
- **Collections as sequences.** Collections are sequences in insertion order, and `findOne` is the
  first match. Ids are positional: an id stands for an ObjectId, and the record at position `k`
  has id `2k` among patients and `2k + 1` among doctors. No id names records in two collections,
  as no ObjectId does, so a patient's token never passes the doctor guard.
- **External inputs as parameters.** The clock (`now`, in milliseconds), the random draw behind
  `generateOTP()`, and JWT verification (a `decode` function) are parameters.
- **bcrypt.** bcrypt is an injective digest: `compare` holds exactly for the source text.
- **The chat pages.** Each chat page is a class over its React state. A server reply is a
  parameter, where a status outside 2xx is the rejection axios throws.

## Model

| member | source | states |
|---|---|---|
| Text.TrimStart | backend/controllers/userController.js:91 | The leading part removed by `trim` is all whitespace. What remains starts with a non-whitespace character, and it is empty exactly when the input is blank. |
| Text.TrimEnd | backend/controllers/userController.js:91 | The same at the end: only trailing whitespace is removed, and the result is empty exactly for a blank input. |
| Text.TrimEmptyIffBlank | backend/controllers/userController.js:91 | `text.trim()` is empty if and only if the text consists only of whitespace. |
| Text.EmptyText | backend/controllers/userController.js:91-93 | The guard `!text \|\| !text.trim()` holds exactly for blank texts. |
| Text.Split | backend/middleware/authUser.js:14 | `split(' ')` always yields at least one field. |
| Text.SplitJoin | backend/middleware/authUser.js:14 | Splitting loses nothing: joining the fields with the separator rebuilds the input, and no field contains the separator. |
| Text.SplitNoSep | backend/middleware/authUser.js:14 | A string without the separator splits into itself alone. |
| Text.SplitAfterField | backend/middleware/authUser.js:14 | A separator-free prefix followed by the separator is exactly the first field; the rest splits on its own. |
| Text.Decimal | backend/controllers/userController.js:11 | `toString()` of a natural is a non-empty string of decimal digits. |
| Text.DecimalRoundTrip | backend/controllers/userController.js:11 | Reading the printed digits back gives the number (print/parse round trip). |
| Text.SixDigits | backend/controllers/userController.js:11 | A number in 100000..999999 prints as exactly six characters. |
| Crypto.HashMatchesOnlyItsSource | backend/controllers/userController.js:180 | `bcrypt.compare(x, hash(p))` holds if and only if `x == p`. |
| Accounts.NewDoctorDefaults | backend/models/doctorModel.js:3-27 | A doctor inserted with only name, e-mail and password gets the schema defaults: unverified, available, profile `incomplete`, and no code of either kind. |
| Accounts.FindFrom | backend/controllers/userController.js:200 | The lookup from a position returns a matching record, none before it from that position matches, and None means nothing from there matches. |
| Accounts.FindOne | backend/controllers/userController.js:174 | `findOne` returns the first record matching the filter, or None exactly when no record matches. |
| Accounts.FindOneSameMatches | backend/controllers/userController.js:174 | The first match depends only on which positions match. |
| Accounts.FindOneAfterUpdate | backend/controllers/userController.js:185-188 | Saving a record without changing whether it matches a filter leaves that filter's first match unchanged. |
| Accounts.FindOneAfterAppend | backend/controllers/userController.js:155-159 | After an insert, the first match is the old one if there was one, else the new record if it matches, else none. |
| Accounts.AppendKeepsInvariants | backend/models/doctorModel.js:5 | Inserting a record with the collection's next id and an address nobody holds keeps e-mails unique and ids positional. |
| Accounts.FindByUniqueEmail | backend/models/doctorModel.js:5 | With the unique e-mail index, a lookup by e-mail finds exactly the record holding that address. |
| Accounts.FindVerifiedByUniqueEmail | backend/controllers/userController.js:200 | With unique e-mails, `{ email, isVerified: true }` finds the verified record holding that address. |
| Accounts.FindById | backend/middleware/authUser.js:21 | `findById(id)` finds a record exactly when the id is one of that collection's ids, and it finds the record at the position the id gives. |
| Accounts.OtherRoleIdFindsNothing | backend/middleware/authDoctor.js:21 | An id of the other collection finds no record, since ObjectIds never repeat across collections. |
| AccountFlows.OtpCode | backend/controllers/userController.js:11 | The generated code is six decimal digits, and its value is the random draw. |
| AccountFlows.PendingPosition | backend/controllers/userController.js:155-159 | The upsert target is an existing position or the next free one. |
| AccountFlows.RegisterPending | backend/controllers/userController.js:144-159 | An address with a verified account is refused and nothing changes. Otherwise exactly one record, the pending one, is created or overwritten. It gets the name, the password digest, the code digest and an expiry ten minutes ahead, and keeps its id and reset fields when it already existed. Every other record is untouched. |
| AccountFlows.RegisterPendingInvariants | backend/controllers/userController.js:155-159 | Registration keeps e-mails unique and ids positional, and never alters a verified account. |
| AccountFlows.VerifyCode | backend/controllers/doctorController.js:66-104 | One if-and-only-if per verdict, in the handlers' check order. No record; already verified; expired; a comparison that throws (no code sent or none stored); a wrong code; success, exactly when the record exists, is unverified and unexpired, and holds the digest of the code sent. Success sets `isVerified` and clears only the sign-up pair. Any failure changes nothing. |
| AccountFlows.VerifyIsSingleUse | backend/controllers/userController.js:176 | After one success, every later attempt for that address is refused as already verified. |
| AccountFlows.RegisterThenVerify | backend/controllers/userController.js:153-188 | Right after registering, the e-mailed code verifies until the ten minutes are up (the expiry instant included). Any other code is refused as wrong, and a body without a code makes the comparison throw. |
| AccountFlows.IssueResetCode | backend/controllers/userController.js:220-242 | A malformed address is refused. One without a verified account changes nothing. Otherwise only that account gets the plain-text code and an expiry ten minutes ahead. |
| AccountFlows.ResetWithCode | backend/controllers/userController.js:260-278 | An empty code or a password shorter than 8 is refused. Success happens if and only if a record has that address, exactly that code and an unexpired expiry. It replaces that record's password digest and clears the reset pair, changing nothing else. |
| AccountFlows.ResetIsSingleUse | backend/controllers/userController.js:276-277 | A reset code works once: reusing it after a success is refused. |
| AccountFlows.IssueThenReset | backend/controllers/userController.js:231-278 | Right after a code is issued, resetting with it succeeds strictly before the ten minutes are up. Any other code fails. |
| AccountFlows.ResetFlowsInvariants | backend/controllers/userController.js:231-278 | Issuing and using reset codes keeps e-mails unique and ids positional, and changes nobody's verification. |
| AccountFlows.VerifyCodeInvariants | backend/controllers/userController.js:185-188 | Verification keeps e-mails unique and ids positional, and never un-verifies anyone. |
| Chats.SenderName | backend/models/Chat.js:40 | A stored sender is exactly `"user"` or `"doctor"`. |
| Chats.SenderNamesDistinct | backend/models/Chat.js:40 | The stored string determines the sender. |
| Chats.CreateChat | backend/models/Chat.js:6-44 | A new chat keeps the given owners, payment details, amount and expiry. `paymentStatus` defaults to false, the log starts empty, and both timestamps are the insert time. |
| Chats.Push | backend/controllers/userController.js:98-100 | A push appends exactly one message `{sender, text, createdAt: now}` at the end. The chat otherwise only evolves: same owners, payment, amount, expiry and old log as a prefix. `updatedAt` becomes now. |
| Chats.EvolvesTransitive | backend/models/Chat.js:39-44 | Successive saves compose into one allowed evolution. |
| ChatQueries.FindChat | backend/controllers/userController.js:94-97 | `Chat.findOne(filter)` returns the first matching chat, or None exactly when none matches. |
| ChatQueries.FindChatById | backend/controllers/userController.js:122-127 | A filter on one chat id finds that chat exactly when it exists and satisfies the rest of the filter. |
| ChatQueries.Select | backend/controllers/userController.js:110 | `Chat.find(filter)` keeps exactly the chats that match. |
| ChatQueries.SelectAppend | backend/controllers/userController.js:110 | Selecting distributes over concatenation: order is preserved and a new chat joins every result it matches. |
| ChatQueries.SelectNarrower | backend/controllers/doctorController.js:317-322 | A stricter filter never selects more chats (active chats are at most the paid ones). |
| ChatQueries.SelectTwice | backend/controllers/doctorController.js:321 | Selecting with a stricter filter from a selection is selecting with it from the start, so the active count counts the caller's paid chats with `expiresAt > now`. |
| ChatQueries.Insert | backend/controllers/userController.js:110 | Inserting into a newest-first list keeps it newest-first and adds exactly that chat. |
| ChatQueries.SortDesc | backend/controllers/userController.js:110 | `sort({key: -1})` is a newest-first permutation of its input. |
| ChatQueries.MultisetSameMembers | backend/controllers/userController.js:110 | A reordering has the same length and exactly the same chats as what it reorders. |
| ChatQueries.Latest | backend/controllers/adminController.js:111-116 | The list has min(n, 5) chats, newest first, all taken from the input without duplication. |
| ChatQueries.LatestIsNewest | backend/controllers/adminController.js:111-116 | None of the chats left out of the newest five is newer than the last one kept. |
| ChatQueries.PrefixSplit | backend/controllers/adminController.js:111-116 | Cutting a list at a position splits its multiset into the two parts. |
| ChatQueries.SortedTailIsOlder | backend/controllers/adminController.js:111-116 | In a newest-first list, nothing after a position is newer than the chat at that position. |
| ChatQueries.SumAmountsAppend | backend/controllers/doctorController.js:319 | Earnings are additive: a further chat adds its amount. |
| ChatQueries.FreeChatsEarnNothing | backend/controllers/doctorController.js:319 | When every chat has amount 0, the earnings are 0. |
| ChatQueries.PatientIds | backend/controllers/doctorController.js:321 | The distinct patients are exactly the chats' user ids, and there are never more of them than chats. |
| ChatQueries.OnePatientCountsOnce | backend/controllers/doctorController.js:321 | Any number of chats with one patient count as one patient. |
| UserController.RequestUserRegistrationOtp | backend/controllers/userController.js:136-169 | 400 exactly when a field is missing, the e-mail is malformed or the password is shorter than 8. Success happens exactly when the input is valid and no verified account holds the address. A refusal writes nothing. Success writes the pending record with the generated code. |
| UserController.VerifyUserOtp | backend/controllers/userController.js:171-195 | Succeeds exactly when the code verifies. Absent, verified and expired records, and only they, get the shared 400. A comparison that throws gets the 500, and a wrong code gets "Invalid OTP.". It writes only what verification writes. |
| UserController.LoginUser | backend/controllers/userController.js:197-214 | A token is issued if and only if a verified account holds the address and the password sent matches it. The token carries that account's id. A verified address with no password in the body gets 500 with bcrypt's message. Every other refusal is 401 without a token. |
| UserController.SignUpThenLogin | backend/controllers/userController.js:136-214 | Register, verify with the e-mailed code in time, then log in with the same password: the login succeeds with the new account's token. |
| UserController.PendingCannotLogin | backend/controllers/userController.js:200-203 | A registered but unverified address is refused at login. |
| UserController.RequestPasswordReset | backend/controllers/userController.js:217-254 | 500 exactly when the body has no address (`validator.isEmail` throws). 400 exactly for a malformed address. Every well-formed address gets a success reply. The store changes only by issuing a code to a verified account. |
| UserController.ResetRequestRevealsAccount | backend/controllers/userController.js:225-242 | The two success messages differ, so the reply tells whether a verified patient holds the address. |
| UserController.ResetPassword | backend/controllers/userController.js:256-285 | Success happens exactly when the code-based reset succeeds. Any refusal is a 400 that writes nothing. |
| UserController.ResetThenLogin | backend/controllers/userController.js:217-285 | Request a code, reset with it in time, and log in with the new password: the login succeeds. |
| UserController.StartChat | backend/controllers/userController.js:14-43 | 400, creating nothing, when the doctor is missing or unavailable. Otherwise exactly one chat is appended: the caller's and the doctor's, paid, amount 0, a free order id, expiring 24 hours after now, with an empty log. |
| UserController.StartedChatIsSendable | backend/controllers/userController.js:24-35 | A consultation just started accepts the patient's messages until exactly 24 hours have passed, and not after. |
| UserController.SendChatMessage | backend/controllers/userController.js:87-105 | 400 exactly for blank text. 403 exactly when the caller has no such paid, unexpired chat. Refusals change nothing. Success appends exactly one user message to that chat and leaves every other chat as it was. |
| UserController.SendKeepsHistory | backend/controllers/userController.js:98-100 | A patient's send never rewrites history: every chat keeps its fields, and its old log is a prefix of the new one. |
| UserController.GetUserChats | backend/controllers/userController.js:107-116 | Exactly the caller's paid chats, as a permutation of the matching chats, most recently updated first. |
| UserController.GetSingleChat | backend/controllers/userController.js:118-133 | Success if and only if a chat has that id and belongs to the caller, and then that chat is returned. Otherwise 404. |
| DoctorController.RequestDoctorRegistrationOtp | backend/controllers/doctorController.js:13-55 | Refused when a verified doctor holds the address. There is no field validation, and a missing password fails after that check. Success writes the pending record with the code. A refusal writes nothing. |
| DoctorController.VerifyDoctorOtp | backend/controllers/doctorController.js:59-114 | Each verdict of the ordered checks gets its own reply, and only that verdict gets it. "Signup process not initiated…", "This email is already verified.", "OTP has expired…" and "Invalid OTP." are sent with status 200; a comparison that throws gets 500; success writes only what verification writes. |
| DoctorController.VerifiedBeforeExpired | backend/controllers/doctorController.js:73-81 | A record both verified and expired is told it is already verified, since that check comes first. |
| DoctorController.VerifyDoctorOtpOnce | backend/controllers/doctorController.js:78-80 | After a success, every further attempt is told the e-mail is already verified. |
| DoctorController.LoginDoctor | backend/controllers/doctorController.js:118-164 | Status 500 with bcrypt's message exactly when a verified account is found and the body has no password; status 200 otherwise. Success if and only if the account exists, is verified and the password matches, and then it returns that id's token and the profile status. An unknown address and a wrong password get the same message. An unverified account gets its own message and no token. |
| DoctorController.RequestDoctorPasswordReset | backend/controllers/doctorController.js:166-198 | As written: 500 exactly when the body has no address, 400 exactly for a malformed one, and success for every other. The store changes only by issuing a code to a verified doctor. |
| DoctorController.ResetRequestRevealsAccount | backend/controllers/doctorController.js:175-192 | For the same well-formed address, the replies with and without a verified doctor differ, so the reply reveals the account. |
| DoctorController.RequestDoctorPasswordResetUniform | backend/controllers/doctorController.js:176 | Corrected: every well-formed address gets the same success reply, the error cases are kept, and the store changes exactly as in the handler. |
| DoctorController.UniformResetHidesAccount | backend/controllers/doctorController.js:176 | With the corrected reply, the answer is the same whatever accounts exist. |
| DoctorController.ResetDoctorPassword | backend/controllers/doctorController.js:200-229 | Success exactly when the code-based reset succeeds. Any refusal is a 400 that writes nothing. |
| DoctorController.ApplyOwnPatch | backend/controllers/doctorController.js:242-266 | The profile becomes `complete` whatever is sent. Each given field replaces the stored one and absent fields are kept. An uploaded image replaces the image. |
| DoctorController.ApplyOwnPatchIdempotent | backend/controllers/doctorController.js:259-266 | Submitting the same form twice has the effect of submitting it once. |
| DoctorController.UpdateDoctorProfile | backend/controllers/doctorController.js:233-273 | 404, writing nothing, for an unknown id. Otherwise only that doctor's profile is patched and the updated record is returned. |
| DoctorController.ChangeAvailability | backend/controllers/doctorController.js:288-298 | For an existing doctor, only that doctor's `available` is negated. An unknown id answers 500 and writes nothing. |
| DoctorController.ChangeAvailabilityTwice | backend/controllers/doctorController.js:290-292 | Two toggles restore every record. |
| DoctorController.DoctorDashboard | backend/controllers/doctorController.js:314-328 | Over the caller's paid chats: the earnings are their amount sum, and the active count is the number of the caller's paid chats with `expiresAt > now`. The patients are the distinct user ids. The latest list is `Latest` of the paid chats by `updatedAt`, so it has no repeats and no left-out chat is newer than its last. |
| DoctorController.GetDoctorChats | backend/controllers/doctorController.js:330-339 | Exactly the caller's paid chats, as a permutation of the matching chats, most recently updated first. |
| DoctorController.GetSingleDoctorChat | backend/controllers/doctorController.js:341-354 | Success if and only if a chat has that id and belongs to the caller. Otherwise 404. |
| DoctorController.DoctorReplyToChat | backend/controllers/doctorController.js:356-374 | 400 exactly for blank text. 404 exactly when the caller owns no chat with that id. There is no payment or expiry check. Success appends exactly one doctor message to that chat only. |
| AdminController.LoginAdmin | backend/controllers/adminController.js:10-24 | A token if and only if both fields equal the configured ones. The token is `{isAdmin: true}` valid for one day. Otherwise 401. |
| AdminController.UnconfiguredAdminAdmitsEmptyBody | backend/controllers/adminController.js:13 | With the admin variables unset, an empty login body is admitted (`undefined === undefined`). |
| AdminController.AddDoctor | backend/controllers/adminController.js:27-47 | Success if and only if name, e-mail and an 8-character password are given and the e-mail is new. Every refusal is a 400 that writes nothing, and a duplicate gets the "already exists" message. Success appends one record with only those fields set. |
| AdminController.AddDoctorInvariants | backend/controllers/adminController.js:37-43 | Adding a doctor keeps e-mails unique and ids positional. |
| AdminController.AddedDoctorCannotLogIn | backend/controllers/adminController.js:37-39 | A doctor the admin adds stays unverified, so logging in with the admin-set credentials is refused. |
| AdminController.AdminDashboard | backend/controllers/adminController.js:84-122 | The counts are the sizes of the three collections. The latest list is `Latest` of all chats by `createdAt`, paid or not: min(n, 5) of them, newest first, drawn from the chats without repeats. |
| AdminController.GetChatSessions | backend/controllers/adminController.js:70-81 | Every chat, unfiltered, as a permutation of the collection, newest-created first. |
| AdminController.ApplyAdminPatch | backend/controllers/adminController.js:142-166 | Given fields replace stored ones. The image is the uploaded file, else the body's value. `profileStatus`, the credentials and both code pairs are untouched. |
| AdminController.UpdateDoctorProfileByAdmin | backend/controllers/adminController.js:137-174 | 404, writing nothing, for an unknown id. Otherwise only that doctor is patched. |
| AdminController.AdminEditKeepsProfileStatus | backend/controllers/adminController.js:159-166 | An admin edit never changes any doctor's profile status. |
| Auth.BearerToken | backend/middleware/authUser.js:8-14 | A token is extracted if and only if the header starts with `Bearer `. |
| Auth.BearerTokenRoundTrip | backend/middleware/authUser.js:14 | A space-free token sent as `Bearer <token>` is extracted unchanged. |
| Auth.BearerTokenIgnoresRest | backend/middleware/authUser.js:14 | Only the second space-separated field is taken. |
| Auth.LowercaseSchemeRefused | backend/middleware/authUser.js:8 | The scheme is case-sensitive: `bearer` is refused. |
| Auth.AuthAccount | backend/middleware/authUser.js:6-35 | `next` is called if and only if there is a Bearer header, the token verifies, and its `id` names an existing account; that id is attached. A missing header gives the no-token message, and every refusal carries one of the three guard messages. |
| Auth.AuthUser | backend/middleware/authUser.js:6-35 | A request passes only as an existing patient, and is refused with one of the patient guard's messages. |
| Auth.AuthDoctor | backend/middleware/authDoctor.js:6-35 | A request passes only as an existing doctor, and is refused with one of the doctor guard's messages. |
| Auth.IssuedTokenAdmits | backend/controllers/userController.js:208 | The token a login signs for an existing account, sent as a Bearer header, admits the request as that account's id. |
| Auth.OtherRoleTokenRefused | backend/middleware/authDoctor.js:21-28 | A token carrying an id of the other collection is refused with the guard's "not found" message. |
| Auth.PatientTokenRefusedByDoctorGuard | backend/middleware/authDoctor.js:21-28 | A patient's login token is refused by `authDoctor` as "doctor not found". |
| Auth.DoctorTokenRefusedByUserGuard | backend/middleware/authUser.js:21-28 | A doctor's login token is refused by `authUser` as "user not found". |
| Auth.AuthAdmin | backend/middleware/authAdmin.js:5-31 | Passes if and only if the verified token's `isAdmin` is the boolean `true`. No account is attached or read, and a missing header gives the no-token message. |
| Auth.AdminGuardSeparatesTokens | backend/middleware/authAdmin.js:19-24 | The admin token passes the admin guard, and a patient or doctor token is refused as invalid. |
| Auth.AdminClaimMustBeBooleanTrue | backend/middleware/authAdmin.js:19 | A truthy non-boolean `isAdmin` such as `"true"` is refused. |
| LocalMessages.FromServer | frontend/src/pages/ChatPage.jsx:60-61 | The shown list is the chat's log, entry by entry, with stored keys and confirmed status. |
| LocalMessages.MarkFailed | frontend/src/pages/ChatPage.jsx:119-121 | The length is kept. Each entry keyed by the stamp becomes failed, and every other entry is unchanged. |
| LocalMessages.MarkFailedKeepsContent | frontend/src/pages/ChatPage.jsx:119-121 | Marking changes only statuses: senders, texts, times and keys stay, in order. |
| LocalMessages.MarkFailedIdempotent | admin/src/pages/Doctor/DoctorChatPage.jsx:126-128 | Marking the same failure twice has the effect of marking it once. |
| LocalMessages.StoredNeverFail | frontend/src/pages/ChatPage.jsx:119-121 | Stored messages are never marked failed. |
| LocalMessages.FailureMarksOnlyItsPlaceholder | frontend/src/pages/ChatPage.jsx:91-121 | With a fresh stamp, a failed send marks exactly its own placeholder and nothing before it. |
| LocalMessages.SameStampMarksBoth | frontend/src/pages/ChatPage.jsx:91 | Two sends in the same millisecond share a key, so one failure marks both placeholders. |
| ChatComponents.MessageInput.constructor | admin/src/components/chat/MessageInput.jsx:4 | The box starts empty. |
| ChatComponents.MessageInput.Change | admin/src/components/chat/MessageInput.jsx:20 | The box holds what was typed. |
| ChatComponents.MessageInput.Submit | admin/src/components/chat/MessageInput.jsx:6-12 | A message is sent if and only if it is non-blank and the box is enabled. It is sent untrimmed and the box is cleared. Otherwise nothing is sent and the text is kept. |
| ChatComponents.Countdown | admin/src/components/chat/ChatExpiryWarning.jsx:14-15 | Minutes are below 60, and hours·3600000 + minutes·60000 ≤ diff < that + 60000. |
| ChatComponents.CountdownUnique | admin/src/components/chat/ChatExpiryWarning.jsx:14-15 | The countdown is the only hours/minutes pair meeting that bound. |
| ChatComponents.Label | admin/src/components/chat/ChatExpiryWarning.jsx:17 | For a positive difference, the label is non-empty and has no minus sign, so the banner shows it. |
| ChatComponents.ChatExpiryWarning.constructor | admin/src/components/chat/ChatExpiryWarning.jsx:4 | The banner starts empty and hidden. |
| ChatComponents.ChatExpiryWarning.Tick | admin/src/components/chat/ChatExpiryWarning.jsx:7-18 | Before expiry the banner shows the countdown. At or after expiry the previous text is kept. With no expiry the text becomes `NaNh NaNm`. |
| ChatComponents.ExpiredBannerState | admin/src/components/chat/ChatExpiryWarning.jsx:12-26 | A banner that first ticks after expiry never shows; one that ticked earlier keeps its stale countdown. |
| ChatComponents.LastMinuteLabel | admin/src/components/chat/ChatExpiryWarning.jsx:14-17 | In the last minute before expiry the banner reads `0h 0m`. |
| ChatPages.ExpiryBoundary | frontend/src/pages/ChatPage.jsx:155 | For a paid chat, the page's `expiresAt < now` and the server's `expiresAt > now` disagree only at the instant `now == expiresAt`. A chat the page calls expired is always closed on the server. |
| ChatPages.FindActive | frontend/src/pages/ChatPage.jsx:34 | The chat found has the requested id; None means no active chat has it. |
| ChatPages.ChatPage.constructor | frontend/src/pages/ChatPage.jsx:15-18 | The page starts with no chat, no messages, no error and no redirect. |
| ChatPages.ChatPage.Load | frontend/src/pages/ChatPage.jsx:26-72 | Without a session it goes to `/login`. A failed fetch sets the error. A chat from the context or from a successful fetch goes to `/doctors` when it is missing or expired, and is otherwise shown with its log; no other chat is ever shown. Only the failed fetch touches the error, and a redirect leaves the chat and its messages as they were. |
| ChatPages.ChatPage.HandleSend | frontend/src/pages/ChatPage.jsx:87-114 | A post happens if and only if the text is non-blank and a chat is shown. Exactly one `Sending` user placeholder is appended at the end. Otherwise the list is unchanged. |
| ChatPages.ChatPage.SendFailed | frontend/src/pages/ChatPage.jsx:116-121 | Only the placeholder with that stamp is marked failed. |
| ChatPages.PatientPostNeverBlank | backend/controllers/userController.js:91-97 | What the page posts is never refused as blank: it either lands or is refused with 403. |
| ChatPages.DoctorChatPage.constructor | admin/src/pages/Doctor/DoctorChatPage.jsx:17-20 | The page starts empty, with no warning. |
| ChatPages.DoctorChatPage.Load | admin/src/pages/Doctor/DoctorChatPage.jsx:27-78 | Without a session it goes to `/doctor/login`. A failed fetch sets the error and goes to the dashboard. A fetched chat is shown even when expired, with a warning. A successful reply without a chat goes to the dashboard. Every path that shows no chat leaves the chat, the messages and the warning as they were. |
| ChatPages.DoctorChatPage.Poll | admin/src/pages/Doctor/DoctorChatPage.jsx:54-64 | A successful fetch replaces the chat and the whole message list. Anything else leaves them. |
| ChatPages.DoctorChatPage.HandleSend | admin/src/pages/Doctor/DoctorChatPage.jsx:92-116 | A post happens if and only if the text is non-blank and a chat is shown. Exactly one `Sending` doctor placeholder is appended. |
| ChatPages.DoctorChatPage.ReplySettled | admin/src/pages/Doctor/DoctorChatPage.jsx:108-128 | A successful re-fetch replaces the list wholesale with the server's log. A rejected post or re-fetch marks only that placeholder failed. |
| ChatPages.DoctorCanReplyOnExpiredChat | admin/src/pages/Doctor/DoctorChatPage.jsx:46-49 | On a chat the page shows as expired, the doctor's reply is accepted while the patient's message is refused. |
| Consultations.DoctorOutlivesPatient | backend/controllers/doctorController.js:360-369 | On an expired or unpaid chat, the patient gets 403 while the doctor's reply goes through. |
| Consultations.BothSidesWriteWhileActive | backend/controllers/userController.js:94-100 | While a chat is paid and unexpired, both the patient and the doctor can write. |
| Consultations.FreeChatLeavesEarnings | backend/controllers/userController.js:24-35 | Starting a free chat leaves every doctor's dashboard earnings unchanged. |
| Consultations.StartedChatIsListed | backend/controllers/userController.js:107-116 | A started chat appears in the patient's and in the doctor's chat list. |
| Consultations.StartSendReply | backend/controllers/doctorController.js:356-374 | Start, a patient message within the day, then a doctor reply: the log is exactly those two messages, in order, with their senders and times. |
| AdminAppContext.CalculateAge | admin/src/context/AppContext.jsx:12-26 | A missing date gives `N/A`, an unparsable one `NaN`, and a date a number of years. |
| AdminAppContext.AgeIsCompletedYears | admin/src/context/AppContext.jsx:17-21 | The age is the number of completed years: that anniversary has come and the next has not. |
| AdminAppContext.CompletedYearsUnique | admin/src/context/AppContext.jsx:17-21 | Only that number of years fits, so the age is fully determined by it. |
| AdminAppContext.BirthdayCounts | admin/src/context/AppContext.jsx:19 | On the birthday the new year counts; the day before it does not. |
| Faq.FirstIndex | frontend/src/components/FaqSection.jsx:139 | The first occurrence of a value. |
| Faq.FirstIndexPrefix | frontend/src/components/FaqSection.jsx:139 | A value in a prefix first occurs in that prefix. |
| Faq.DistinctSpec | frontend/src/components/FaqSection.jsx:139 | `[...new Set(xs)]` has no duplicates, the same members as `xs`, and keeps the order of first appearance. |
| Faq.CategoryOf | frontend/src/components/FaqSection.jsx:139 | The category column, item by item. |
| Faq.Categories | frontend/src/components/FaqSection.jsx:139 | `All` comes first, and the rest are exactly the categories that occur. |
| Faq.CategoriesDistinct | frontend/src/components/FaqSection.jsx:139 | Every button is distinct if and only if no item is filed under `All`. |
| Faq.DistinctSnoc | frontend/src/components/FaqSection.jsx:139 | A new value is added at the end; a seen one adds nothing. |
| Faq.DistinctSnocThree | frontend/src/components/FaqSection.jsx:139 | Three copies of a new value add it once. |
| Faq.DistinctOfBlocks | frontend/src/components/FaqSection.jsx:139 | Five different categories of three questions each give each category once, in order of appearance. |
| Faq.SiteCategoryColumn | frontend/src/components/FaqSection.jsx:5-96 | The site's fifteen questions fall in five categories of three. |
| Faq.SiteCategories | frontend/src/components/FaqSection.jsx:139 | The site shows the buttons All, General, For Patients, For Doctors, Technical Support, Privacy & Security, in that order. |
| Faq.Filtered | frontend/src/components/FaqSection.jsx:141-143 | `All` yields every question. Any other category yields exactly its questions. |
| Faq.FilteredAppend | frontend/src/components/FaqSection.jsx:143 | Filtering distributes over concatenation, so the original order is kept. |
| Faq.FilteredOne | frontend/src/components/FaqSection.jsx:143 | A single question is kept exactly when it is in the chosen category or `All` is chosen. |
| Faq.EveryButtonHasQuestions | frontend/src/components/FaqSection.jsx:192 | No category button shows "No questions in this category." |
| Faq.Toggled | frontend/src/components/FaqSection.jsx:146 | The question is open afterwards if and only if it was not open before. |
| Faq.ToggleTwice | frontend/src/components/FaqSection.jsx:145-147 | Toggling twice reopens it if it was open, and otherwise leaves everything closed. |
| Faq.FaqSection.constructor | frontend/src/components/FaqSection.jsx:135-136 | Nothing is open, and `All` is selected. |
| Faq.FaqSection.HandleToggle | frontend/src/components/FaqSection.jsx:145-147 | Opening one question closes every other. The toggled one flips. The category is unchanged. |
| Faq.FaqSection.SelectCategory | frontend/src/components/FaqSection.jsx:164-167 | Choosing a category selects it and closes any open question. |
| Server.SameKeysKeepInvariants | backend/models/doctorModel.js:5 | Rewriting records while keeping every id and e-mail keeps e-mails unique and ids positional. |
| Server.EvolvedChatsKeepInvariants | backend/models/Chat.js:6-15 | Evolving chats keeps ids positional and every owner existing. |
| Server.Database.RequestUserRegistrationOtp | backend/controllers/userController.js:136-169 | The store runs the handler in place: the reply and the patients are the handler's, the rest is untouched, and the store stays valid. |
| Server.Database.VerifyUserOtp | backend/controllers/userController.js:171-195 | The same for verification. |
| Server.Database.RequestPasswordReset | backend/controllers/userController.js:217-254 | The same for the patient reset request. |
| Server.Database.ResetPassword | backend/controllers/userController.js:256-285 | The same for the patient reset. |
| Server.Database.StartChat | backend/controllers/userController.js:14-43 | The chats become the handler's result, the accounts are untouched, and every chat still names an existing patient and an existing doctor. |
| Server.Database.SendChatMessage | backend/controllers/userController.js:87-105 | The chats become the handler's result and only evolve. The store stays valid. |
| Server.Database.RequestDoctorRegistrationOtp | backend/controllers/doctorController.js:13-55 | The doctors become the handler's result, and the store stays valid. |
| Server.Database.VerifyDoctorOtp | backend/controllers/doctorController.js:59-114 | The same for doctor verification. |
| Server.Database.RequestDoctorPasswordReset | backend/controllers/doctorController.js:166-198 | Runs the corrected reset request: 500 without an address, one reply for every well-formed address, the same writes, and the store stays valid. |
| Server.Database.ResetDoctorPassword | backend/controllers/doctorController.js:200-229 | The same for the doctor reset. |
| Server.Database.UpdateDoctorProfile | backend/controllers/doctorController.js:233-273 | The same for the doctor's own profile update. |
| Server.Database.ChangeAvailability | backend/controllers/doctorController.js:288-298 | The same for the availability toggle. |
| Server.Database.DoctorReplyToChat | backend/controllers/doctorController.js:356-374 | The chats become the handler's result and only evolve. The store stays valid. |
| Server.Database.AddDoctor | backend/controllers/adminController.js:27-47 | The doctors become the handler's result, and the store stays valid. |
| Server.Database.UpdateDoctorProfileByAdmin | backend/controllers/adminController.js:137-174 | The same for the admin's profile edit. |

## Left out

- E-mail delivery: `sendEmail` swallows its own errors, so sending is treated as always succeeding. The cleanup after a failed reset e-mail (backend/controllers/userController.js:243-248) is therefore not modelled. backend/utils/sendEmail.js is not part of this model.
- bcrypt salts and cost, JWT signing and verification, and `Math.random`. These are foreign calls. They become an injective digest, a `decode` parameter and a `draw` parameter.
- Token expiry: verification is the caller's `decode`, so a lapsed admin token is simply one `decode` rejects.
- Text.IsEmail: a simplified shape check (one `@`, non-empty local part, a dot in the domain, no spaces), not the full grammar of `validator.isEmail`.
- Image uploads (multer, Cloudinary): an uploaded file is its resulting URL, passed as `upload`.
- Mongoose mechanics: `select`, `populate` and projections, `runValidators`, cast errors, and the `upsert` options.
  - An id that is not an ObjectId makes `findById` throw, giving the guards' "token failed" reply. The model has only natural ids, so that path is not modelled.
  - An id is given by the record's collection and position, and no record is ever deleted.
- Database and unexpected-error branches: the 500 replies for a database failure are not modelled. The modelled 500s are the explicit ones, such as a record with no stored code, or `changeAvailablity` on an unknown id.
- Missing request fields: a field the handler only tests for truth is the empty string when it is missing. A field that reaches a call which throws on `undefined` is an `Option`, and the resulting 500 is modelled. These fields are:
  - a doctor's password at registration;
  - the password at both logins;
  - the code at both verifications;
  - the address at both reset requests.
  The admin login fields are `Option`s as well, because `undefined === undefined`. Not modelled: an `undefined` e-mail used as a lookup filter or written by an upsert, and a doctor's missing `name` at registration (backend/controllers/doctorController.js:35), which the upsert drops so that a pending record keeps its old name. The model treats each as the empty string and writes it.
- Chat amounts: `amount` is a JavaScript number and may be fractional. The model keeps whole numbers, so `ChatQueries.SumAmounts` does not capture fractional or floating-point sums. Every consultation the code creates is free (amount 0).
- The patient schema: backend/models/userModel.js is not part of this model. A patient carries the credential fields only.
- Handlers outside the consultation core: profile read and update for patients, the doctor list and profile, and the admin's doctor list and single-doctor view.
- Time: timezones in `calculateAge` (a date is given as the calendar day), and the polling and countdown intervals (each tick is one call).
- Sort ties: the order among chats with equal timestamps is whatever the insertion sort yields.
- Concurrency: two requests interleaving on one chat document, and React's batched state updates.
- ChatPages.ChatPage.Load, ChatPages.ChatPage.HandleSend: the context's `loadActiveChats` refresh, which runs after a successful fetch, every five seconds once a chat is shown, and after a successful post, is not modelled. When it succeeds it replaces the context's active chats, and the page then re-runs the loader (frontend/src/pages/ChatPage.jsx:80). It catches its own errors, so it never marks a message failed (frontend/src/context/AppContext.jsx:58-70).
- Rendering: loading flags, toasts, markup, and the FAQ question and answer texts.
- Server.Database.StartChat: it requires the caller to be an existing patient, which the `authUser` guard guarantees before the handler runs.

## Findings

| source | as written | input that shows it | evidently intended | confidence | as-written member | corrected member |
|---|---|---|---|---|---|---|
| backend/controllers/doctorController.js:175-192 | The reset request for a well-formed address answers with one message when no verified doctor holds it and with another when one does. The patient handler has the same two replies, without a comment promising otherwise, and is modelled as written (`UserController.ResetRequestRevealsAccount`). | The same address sent to a store without that doctor and to a store with a verified doctor holding it: both replies are `success: true`, but the messages differ. | The comment at line 176 says the reply should not reveal whether the account exists, so every well-formed address should get the same reply. | not executed | DoctorController.ResetRequestRevealsAccount | DoctorController.UniformResetHidesAccount |
