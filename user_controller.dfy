/**
 * The patient handlers (backend/controllers/userController.js): registration by e-mailed
 * code, login, password reset, and the patient side of a consultation.
 *
 * Each handler is a function of the collections it reads and the request's fields, giving
 * its reply and the collection it writes. The caller's id (`req.user.id`) is the one the
 * `authUser` middleware attached; `now` is the clock reading and `draw` the random six-digit
 * number behind `generateOTP()`. A request field that is missing is the empty string where the
 * handler only tests it for truth; it is `None` where `undefined` reaches `bcrypt.compare` or
 * `validator.isEmail`, which throw on it.
 */
module UserController {
  import opened Wrappers
  import opened Text
  import opened Crypto
  import opened Http
  import opened Accounts
  import opened AccountFlows
  import opened Chats
  import opened ChatQueries

  /** A consultation lasts a day from its start (`24 * 60 * 60 * 1000` ms). */
  const ChatLifetimeMs: nat := 24 * 60 * 60 * 1000

  // ---------------------------------------------------------------- registration and login

  /** The patient registration check: all three fields present, a well-formed address, a password of eight or more. */
  predicate ValidRegistration(name: string, email: string, password: string) {
    name != "" && email != "" && password != "" && IsEmail(email) && |password| >= 8
  }

  /** `requestUserRegistrationOTP`. */
  function RequestUserRegistrationOtp(users: seq<Patient>, name: string, email: string, password: string,
                                      draw: nat, now: nat): (o: Outcome<(), seq<Patient>>)
    requires IsOtpDraw(draw)
    ensures o.response.status == 400 <==> !ValidRegistration(name, email, password)
    ensures o.response.success <==>
      ValidRegistration(name, email, password) && FindOne(users, VerifiedEmail(email)).None?
    ensures !o.response.success ==> o.after == users
    ensures o.response.success ==>
      o.after == RegisterPending(users, PatientRole, name, email, password, OtpCode(draw), now, ()).1
  {
    if !ValidRegistration(name, email, password) then
      Outcome(Fail(400, "Please provide all valid details."), users)
    else
      var (verdict, after) := RegisterPending(users, PatientRole, name, email, password, OtpCode(draw), now, ());
      match verdict
      case AlreadyRegistered => Outcome(Refuse("User with this email already exists."), users)
      case CodeSent => Outcome(Ok("OTP sent to your email. Please verify.", None), after)
  }

  /** The one refusal `verifyUserOTP` gives an absent, verified or expired record. */
  const VerificationFailed: string := "Verification failed. Code may be invalid or expired."

  /**
   * `verifyUserOTP`: absent, verified and expired records share one 400, a wrong code has its
   * own, and a comparison that throws (no code in the body, or none stored) is a 500.
   */
  function VerifyUserOtp(users: seq<Patient>, email: string, code: Option<string>, now: nat)
    : (o: Outcome<(), seq<Patient>>)
    ensures o.response.success <==> VerifyCode(users, email, code, now).0 == Verified
    ensures o.after == VerifyCode(users, email, code, now).1
    ensures var v := VerifyCode(users, email, code, now).0;
      v == NoRecord || v == AlreadyVerified || v == CodeExpired <==> o.response == Fail(400, VerificationFailed)
    ensures o.response == Fail(500, "Error during verification.") <==>
      VerifyCode(users, email, code, now).0 == CompareThrows
    ensures o.response == Fail(400, "Invalid OTP.") <==> VerifyCode(users, email, code, now).0 == WrongCode
  {
    var (verdict, after) := VerifyCode(users, email, code, now);
    match verdict
    case NoRecord => Outcome(Fail(400, VerificationFailed), users)
    case AlreadyVerified => Outcome(Fail(400, VerificationFailed), users)
    case CodeExpired => Outcome(Fail(400, VerificationFailed), users)
    case CompareThrows => Outcome(Fail(500, "Error during verification."), users)
    case WrongCode => Outcome(Fail(400, "Invalid OTP."), users)
    case Verified => Outcome(Ok("Email verified successfully!", None), after)
  }

  /**
   * `loginUser`: only a verified account is looked up; the token carries its id and never
   * expires. A body without a password makes `bcrypt.compare` reject, answered with 500 and the
   * error's message.
   */
  function LoginUser(users: seq<Patient>, email: string, password: Option<string>): (r: Response<Token>)
    ensures r.success <==>
      var f := FindOne(users, VerifiedEmail(email));
      f.Some? && password.Some? && users[f.value].password == Hash(password.value)
    ensures r.success ==> r.data == Some(AccountToken(users[FindOne(users, VerifiedEmail(email)).value].id))
    ensures r.status == 500 <==> FindOne(users, VerifiedEmail(email)).Some? && password.None?
    ensures r.status == 500 ==> r == Fail(500, CompareArgumentsMissing)
    ensures !r.success && r.status != 500 ==> r.status == 401 && r.data.None?
    ensures FindOne(users, VerifiedEmail(email)).None? ==> r == Fail(401, "Invalid credentials or email not verified")
  {
    match FindOne(users, VerifiedEmail(email))
    case None => Fail(401, "Invalid credentials or email not verified")
    case Some(i) =>
      match password
      case None => Fail(500, CompareArgumentsMissing)
      case Some(p) =>
        if !Compare(p, users[i].password) then Fail(401, "Invalid credentials")
        else Ok("", Some(AccountToken(users[i].id)))
  }

  /** The whole sign-up: register, verify with the e-mailed code in time, then log in with the password. */
  lemma SignUpThenLogin(users: seq<Patient>, name: string, email: string, password: string,
                        draw: nat, now: nat, later: nat)
    requires UniqueEmails(users) && IdsArePositions(users, PatientRole) && IsOtpDraw(draw)
    requires RequestUserRegistrationOtp(users, name, email, password, draw, now).response.success
    requires later <= now + OtpLifetimeMs
    ensures var registered := RequestUserRegistrationOtp(users, name, email, password, draw, now).after;
      var verified := VerifyUserOtp(registered, email, Some(OtpCode(draw)), later);
      && verified.response.success
      && LoginUser(verified.after, email, Some(password)).success
  {
    var code := OtpCode(draw);
    var registered := RegisterPending(users, PatientRole, name, email, password, code, now, ()).1;
    RegisterPendingInvariants(users, PatientRole, name, email, password, code, now, ());
    RegisterThenVerify(users, PatientRole, name, email, password, code, now, (), Some(code), later);
    var k := PendingPosition(users, email);
    FindByUniqueEmail(registered, k);
    var verified := VerifyCode(registered, email, Some(code), later).1;
    VerifyCodeInvariants(registered, PatientRole, email, Some(code), later);
    assert Satisfies(verified[k], VerifiedEmail(email));
    var f := FindOne(verified, VerifiedEmail(email));
    assert f.Some? && f.value <= k;
    assert verified[f.value].email == verified[k].email;
  }

  /** A registered but unverified address cannot log in. */
  lemma PendingCannotLogin(users: seq<Patient>, name: string, email: string, password: string,
                           draw: nat, now: nat, attempt: Option<string>)
    requires UniqueEmails(users) && IdsArePositions(users, PatientRole) && IsOtpDraw(draw)
    requires RequestUserRegistrationOtp(users, name, email, password, draw, now).response.success
    ensures var registered := RequestUserRegistrationOtp(users, name, email, password, draw, now).after;
      LoginUser(registered, email, attempt) == Fail(401, "Invalid credentials or email not verified")
  {
    var registered := RegisterPending(users, PatientRole, name, email, password, OtpCode(draw), now, ()).1;
    var k := PendingPosition(users, email);
    RegisterPendingInvariants(users, PatientRole, name, email, password, OtpCode(draw), now, ());
    forall j | 0 <= j < |registered| ensures !Satisfies(registered[j], VerifiedEmail(email)) {
      if j != k {
        assert registered[j].email != registered[k].email;
      }
    }
  }

  // ---------------------------------------------------------------- password reset

  /**
   * `requestPasswordReset`: `validator.isEmail` throws on a body without an address, which is
   * answered with 500. A well-formed address is answered with success, with one message when
   * no verified account holds it and another when one does.
   */
  function RequestPasswordReset(users: seq<Patient>, email: Option<string>, draw: nat, now: nat)
    : (o: Outcome<(), seq<Patient>>)
    requires IsOtpDraw(draw)
    ensures o.response.status == 500 <==> email.None?
    ensures email.None? ==> o.response == Fail(500, "An unexpected error occurred.") && o.after == users
    ensures o.response.status == 400 <==> email.Some? && !IsEmail(email.value)
    ensures email.Some? && IsEmail(email.value) ==> o.response.success
    ensures email.Some? ==> o.after == IssueResetCode(users, email.value, OtpCode(draw), now).1
  {
    match email
    case None => Outcome(Fail(500, "An unexpected error occurred."), users)
    case Some(e) =>
      var (verdict, after) := IssueResetCode(users, e, OtpCode(draw), now);
      match verdict
      case InvalidEmail => Outcome(Fail(400, "Please enter a valid email."), users)
      case NoSuchAccount =>
        Outcome(Ok("If an account with that email exists, a password reset code has been sent.", None), users)
      case CodeIssued => Outcome(Ok("A password reset code has been sent to your email.", None), after)
  }

  /** As for doctors, the reply to a reset request tells whether a verified patient holds the address. */
  lemma ResetRequestRevealsAccount(without: seq<Patient>, with: seq<Patient>, email: string, draw: nat, now: nat)
    requires IsOtpDraw(draw) && IsEmail(email)
    requires FindOne(without, VerifiedEmail(email)).None? && FindOne(with, VerifiedEmail(email)).Some?
    ensures RequestPasswordReset(without, Some(email), draw, now).response
         != RequestPasswordReset(with, Some(email), draw, now).response
  {
    assert IssueResetCode(without, email, OtpCode(draw), now).0 == NoSuchAccount;
    assert IssueResetCode(with, email, OtpCode(draw), now).0 == CodeIssued;
    var a := RequestPasswordReset(without, Some(email), draw, now).response.message;
    var b := RequestPasswordReset(with, Some(email), draw, now).response.message;
    assert a == "If an account with that email exists, a password reset code has been sent.";
    assert b == "A password reset code has been sent to your email.";
    assert |a| != |b|;
  }

  /** `resetPassword`. */
  function ResetPassword(users: seq<Patient>, email: string, code: string, newPassword: string, now: nat)
    : (o: Outcome<(), seq<Patient>>)
    ensures o.response.success <==> ResetWithCode(users, email, code, newPassword, now).0 == PasswordReplaced
    ensures !o.response.success ==> o.response.status == 400 && o.after == users
    ensures o.after == ResetWithCode(users, email, code, newPassword, now).1
  {
    var (verdict, after) := ResetWithCode(users, email, code, newPassword, now);
    match verdict
    case MissingInput =>
      Outcome(Fail(400, "Please provide a valid code and a new password of at least 8 characters."), users)
    case InvalidCode =>
      Outcome(Fail(400, "The code is invalid or has expired. Please request a new one."), users)
    case PasswordReplaced =>
      Outcome(Ok("Password has been reset successfully. You can now log in.", None), after)
  }

  /** The whole reset: request a code for a verified account, use it in time, then log in with the new password. */
  lemma ResetThenLogin(users: seq<Patient>, email: string, draw: nat, now: nat, newPassword: string, later: nat)
    requires UniqueEmails(users) && IdsArePositions(users, PatientRole) && IsOtpDraw(draw)
    requires FindOne(users, VerifiedEmail(email)).Some? && IsEmail(email)
    requires |newPassword| >= 8 && later < now + OtpLifetimeMs
    ensures var issued := RequestPasswordReset(users, Some(email), draw, now).after;
      var reset := ResetPassword(issued, email, OtpCode(draw), newPassword, later);
      && reset.response.success
      && LoginUser(reset.after, email, Some(newPassword)).success
  {
    var code := OtpCode(draw);
    var i := FindOne(users, VerifiedEmail(email)).value;
    var issued := IssueResetCode(users, email, code, now).1;
    IssueThenReset(users, email, code, now, code, newPassword, later);
    ResetFlowsInvariants(users, PatientRole, email, code, newPassword, now);
    var j := FindOne(issued, ByResetCode(email, code, later)).value;
    assert issued[j].email == issued[i].email;
    assert j == i;
    var reset := ResetWithCode(issued, email, code, newPassword, later).1;
    ResetFlowsInvariants(issued, PatientRole, email, code, newPassword, later);
    FindVerifiedByUniqueEmail(reset, i);
  }

  // ---------------------------------------------------------------- consultations

  /** The free-consultation order id: `order_free_` followed by the start time. */
  function FreeOrderId(now: nat): string {
    "order_free_" + Decimal(now)
  }

  /** `startChat`: a free, paid-up consultation with a day's lifetime, if the doctor exists and is available. */
  function StartChat(doctors: seq<Doctor>, chats: seq<Chat>, userId: nat, doctorId: nat, now: nat)
    : (o: Outcome<Chat, seq<Chat>>)
    ensures var f := FindOne(doctors, ById(doctorId));
      o.response.success <==> f.Some? && doctors[f.value].profile.available
    ensures !o.response.success ==>
      o.response == Fail(400, "Doctor is not available for chat.") && o.after == chats
    ensures o.response.success ==>
      && o.response.data.Some?
      && var c := o.response.data.value;
      && o.after == chats + [c]
      && c.id == |chats| && c.userId == userId && c.doctorId == doctorId
      && c.amount == 0 && c.paymentStatus && c.expiresAt == Some(now + ChatLifetimeMs)
      && c.paymentDetails == PaymentDetails(FreeOrderId(now), None, None)
      && c.messages == [] && c.createdAt == now && c.updatedAt == now
  {
    match FindOne(doctors, ById(doctorId))
    case None => Outcome(Fail(400, "Doctor is not available for chat."), chats)
    case Some(d) =>
      if !doctors[d].profile.available then Outcome(Fail(400, "Doctor is not available for chat."), chats)
      else
        var c := CreateChat(|chats|, userId, doctorId, Some(true),
                            PaymentDetails(FreeOrderId(now), None, None), 0, Some(now + ChatLifetimeMs), now);
        Outcome(Ok("Chat session started", Some(c)), chats + [c])
  }

  /** A consultation just started accepts the patient's messages for exactly one day. */
  lemma StartedChatIsSendable(doctors: seq<Doctor>, chats: seq<Chat>, userId: nat, doctorId: nat, now: nat, later: nat)
    requires ChatIdsArePositions(chats)
    requires StartChat(doctors, chats, userId, doctorId, now).response.success
    ensures var after := StartChat(doctors, chats, userId, doctorId, now).after;
      FindChat(after, Sendable(|chats|, userId, later)).Some? <==> later < now + ChatLifetimeMs
  {
    var after := StartChat(doctors, chats, userId, doctorId, now).after;
    assert ChatIdsArePositions(after);
    FindChatById(after, Sendable(|chats|, userId, later), |chats|);
  }

  /** `sendChatMessage`: a non-blank message goes onto the caller's own paid, unexpired chat. */
  function SendChatMessage(chats: seq<Chat>, userId: nat, chatId: nat, text: string, now: nat)
    : (o: Outcome<Chat, seq<Chat>>)
    ensures o.response.status == 400 <==> IsBlank(text)
    ensures o.response.status == 403 <==> !IsBlank(text) && FindChat(chats, Sendable(chatId, userId, now)).None?
    ensures !o.response.success ==> o.after == chats
    ensures o.response.success ==>
      && FindChat(chats, Sendable(chatId, userId, now)).Some?
      && var i := FindChat(chats, Sendable(chatId, userId, now)).value;
      && chats[i].id == chatId && chats[i].userId == userId && chats[i].paymentStatus && Unexpired(chats[i], now)
      && |o.after| == |chats|
      && o.after[i] == Push(chats[i], FromUser, text, now)
      && o.response.data == Some(o.after[i])
      && forall j :: 0 <= j < |chats| && j != i ==> o.after[j] == chats[j]
  {
    if EmptyText(text) then Outcome(Fail(400, "Message cannot be empty"), chats)
    else
      var found := FindChat(chats, Sendable(chatId, userId, now));
      if found.None? then Outcome(Fail(403, "Chat not found or access denied"), chats)
      else
        var i := found.value;
        var c := Push(chats[i], FromUser, text, now);
        var after := chats[i := c];
        assert |after| == |chats| && after[i] == c;
        Outcome(Ok("Message sent", Some(c)), after)
  }

  /** A patient's message never rewrites a chat: every chat keeps its fields and its old log as a prefix. */
  lemma SendKeepsHistory(chats: seq<Chat>, userId: nat, chatId: nat, text: string, now: nat)
    ensures CollectionEvolves(chats, SendChatMessage(chats, userId, chatId, text, now).after)
  {
    var o := SendChatMessage(chats, userId, chatId, text, now);
    if o.response.success {
      var i := FindChat(chats, Sendable(chatId, userId, now)).value;
      forall j | 0 <= j < |chats| ensures Evolves(chats[j], o.after[j]) {
        if j != i {
          assert o.after[j] == chats[j];
          assert chats[j].messages[..|chats[j].messages|] == chats[j].messages;
        }
      }
    } else {
      forall j | 0 <= j < |chats| ensures Evolves(chats[j], chats[j]) {
        assert chats[j].messages[..|chats[j].messages|] == chats[j].messages;
      }
    }
  }

  /** `getUserChats`: the caller's paid chats, most recently updated first. */
  function GetUserChats(chats: seq<Chat>, userId: nat): (r: Response<seq<Chat>>)
    ensures r.success && r.data.Some?
    ensures forall c :: c in r.data.value <==> c in chats && c.userId == userId && c.paymentStatus
    ensures SortedDesc(r.data.value, ByUpdatedAt)
    ensures multiset(r.data.value) == multiset(Select(chats, PaidOfUser(userId)))
  {
    var paid := Select(chats, PaidOfUser(userId));
    var mine := SortDesc(paid, ByUpdatedAt);
    MultisetSameMembers(mine, paid);
    Ok("", Some(mine))
  }

  /** `getSingleChat`: the chat with that id, only if it is the caller's (paid or not, expired or not). */
  function GetSingleChat(chats: seq<Chat>, userId: nat, chatId: nat): (r: Response<Chat>)
    ensures r.success <==> exists i :: 0 <= i < |chats| && chats[i].id == chatId && chats[i].userId == userId
    ensures r.success ==> r.data.Some? && r.data.value in chats && r.data.value.id == chatId && r.data.value.userId == userId
    ensures !r.success ==> r == Fail(404, "Chat not found.")
  {
    match FindChat(chats, OfUser(chatId, userId))
    case None => Fail(404, "Chat not found.")
    case Some(i) => Ok("", Some(chats[i]))
  }
}
