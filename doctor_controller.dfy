/**
 * The doctor handlers (backend/controllers/doctorController.js): registration by e-mailed
 * code, login, password reset, the profile and availability, the dashboard, and the doctor
 * side of a consultation.
 *
 * As for patients, each handler is a function of what it reads and the request's fields,
 * giving its reply and what it writes. The caller's id (`req.doctor.id`) is the one the
 * `authDoctor` middleware attached. Unlike the patient handlers, most doctor refusals are sent
 * with status 200 and `success: false`. A field that reaches `bcrypt` or `validator` is `None`
 * when the body lacks it, since both throw on `undefined`.
 */
module DoctorController {
  import opened Wrappers
  import opened Text
  import opened Crypto
  import opened Http
  import opened Accounts
  import opened AccountFlows
  import opened Chats
  import opened ChatQueries

  // ---------------------------------------------------------------- registration and login

  /**
   * `requestDoctorRegistrationOTP`: no field is validated. A missing password reaches
   * `bcrypt.hash(undefined)`, which throws, so it fails with 500 once the verified-address
   * check has passed.
   */
  function RequestDoctorRegistrationOtp(doctors: seq<Doctor>, name: string, email: string, password: Option<string>,
                                        draw: nat, now: nat): (o: Outcome<(), seq<Doctor>>)
    requires IsOtpDraw(draw)
    ensures FindOne(doctors, VerifiedEmail(email)).Some? ==>
      o.response == Refuse("Doctor with this email already exists.")
    ensures o.response.success <==> FindOne(doctors, VerifiedEmail(email)).None? && password.Some?
    ensures !o.response.success ==> o.after == doctors
    ensures o.response.success ==>
      o.after == RegisterPending(doctors, DoctorRole, name, email, password.value, OtpCode(draw), now, NewDoctorProfile).1
  {
    if FindOne(doctors, VerifiedEmail(email)).Some? then
      Outcome(Refuse("Doctor with this email already exists."), doctors)
    else match password
      case None => Outcome(Fail(500, "Error sending OTP."), doctors)
      case Some(p) =>
        var after := RegisterPending(doctors, DoctorRole, name, email, p, OtpCode(draw), now, NewDoctorProfile).1;
        Outcome(Ok("OTP sent to your email. Please verify.", None), after)
  }

  /**
   * `verifyDoctorOTP`: the checks in order, each refusal with its own message and status 200; a
   * comparison that throws (no code in the body, or none stored) is a 500.
   */
  function VerifyDoctorOtp(doctors: seq<Doctor>, email: string, code: Option<string>, now: nat)
    : (o: Outcome<(), seq<Doctor>>)
    ensures o.response.success <==> VerifyCode(doctors, email, code, now).0 == Verified
    ensures o.after == VerifyCode(doctors, email, code, now).1
    ensures o.response == Refuse("Signup process not initiated for this email.") <==>
      VerifyCode(doctors, email, code, now).0 == NoRecord
    ensures o.response == Refuse("This email is already verified.") <==>
      VerifyCode(doctors, email, code, now).0 == AlreadyVerified
    ensures o.response == Refuse("OTP has expired. Please try signing up again.") <==>
      VerifyCode(doctors, email, code, now).0 == CodeExpired
    ensures o.response == Fail(500, "Error during verification.") <==>
      VerifyCode(doctors, email, code, now).0 == CompareThrows
    ensures o.response == Refuse("Invalid OTP.") <==> VerifyCode(doctors, email, code, now).0 == WrongCode
  {
    var (verdict, after) := VerifyCode(doctors, email, code, now);
    match verdict
    case NoRecord => Outcome(Refuse("Signup process not initiated for this email."), doctors)
    case AlreadyVerified => Outcome(Refuse("This email is already verified."), doctors)
    case CodeExpired => Outcome(Refuse("OTP has expired. Please try signing up again."), doctors)
    case CompareThrows => Outcome(Fail(500, "Error during verification."), doctors)
    case WrongCode => Outcome(Refuse("Invalid OTP."), doctors)
    case Verified => Outcome(Ok("Email verified successfully! Please log in to continue.", None), after)
  }

  /** A record that is both verified and expired is told it is verified: that check comes first. */
  lemma VerifiedBeforeExpired(doctors: seq<Doctor>, email: string, code: Option<string>, now: nat)
    requires FindOne(doctors, ByEmail(email)).Some?
    requires var d := doctors[FindOne(doctors, ByEmail(email)).value]; d.isVerified && OtpExpired(d, now)
    ensures VerifyDoctorOtp(doctors, email, code, now).response == Refuse("This email is already verified.")
  {
  }

  /** Once a doctor's code has been accepted, every further attempt is told the address is already verified. */
  lemma VerifyDoctorOtpOnce(doctors: seq<Doctor>, email: string, code: Option<string>, now: nat,
                            again: Option<string>, later: nat)
    requires VerifyDoctorOtp(doctors, email, code, now).response.success
    ensures VerifyDoctorOtp(VerifyDoctorOtp(doctors, email, code, now).after, email, again, later).response
      == Refuse("This email is already verified.")
  {
    VerifyIsSingleUse(doctors, email, code, now, again, later);
  }

  /** What a successful doctor login sends: the token and the profile status. */
  datatype DoctorLogin = DoctorLogin(token: Token, profileStatus: ProfileStatus)

  /**
   * `loginDoctor`: the record is looked up by e-mail alone. An unknown address and a wrong
   * password get the same reply; an unverified account gets its own and no token. A verified
   * account with no password in the body makes `bcrypt.compare` reject, answered with 500 and
   * the error's message; every other reply has status 200.
   */
  function LoginDoctor(doctors: seq<Doctor>, email: string, password: Option<string>): (r: Response<DoctorLogin>)
    ensures r.status == 500 <==>
      var f := FindOne(doctors, ByEmail(email));
      f.Some? && doctors[f.value].isVerified && password.None?
    ensures r.status == 500 ==> r == Fail(500, CompareArgumentsMissing)
    ensures r.status != 500 ==> r.status == 200
    ensures r.success <==>
      var f := FindOne(doctors, ByEmail(email));
      f.Some? && doctors[f.value].isVerified && password.Some? && doctors[f.value].password == Hash(password.value)
    ensures r.success ==>
      var d := doctors[FindOne(doctors, ByEmail(email)).value];
      r.data == Some(DoctorLogin(AccountToken(d.id), d.profile.profileStatus))
    ensures var f := FindOne(doctors, ByEmail(email));
      f.Some? && !doctors[f.value].isVerified ==> r == Refuse("Please verify your email before logging in.")
    ensures var f := FindOne(doctors, ByEmail(email));
      !r.success && r.status == 200 && (f.None? || doctors[f.value].isVerified) ==> r == Refuse("Invalid credentials")
  {
    match FindOne(doctors, ByEmail(email))
    case None => Refuse("Invalid credentials")
    case Some(i) =>
      var d := doctors[i];
      if !d.isVerified then Refuse("Please verify your email before logging in.")
      else match password
        case None => Fail(500, CompareArgumentsMissing)
        case Some(p) =>
          if Compare(p, d.password) then Ok("", Some(DoctorLogin(AccountToken(d.id), d.profile.profileStatus)))
          else Refuse("Invalid credentials")
  }

  // ---------------------------------------------------------------- password reset

  /**
   * `requestDoctorPasswordReset` as written: `validator.isEmail` throws on a body without an
   * address (500); both outcomes for a well-formed address say `success: true`, but with
   * different messages.
   */
  function RequestDoctorPasswordReset(doctors: seq<Doctor>, email: Option<string>, draw: nat, now: nat)
    : (o: Outcome<(), seq<Doctor>>)
    requires IsOtpDraw(draw)
    ensures o.response.status == 500 <==> email.None?
    ensures email.None? ==> o.response == Fail(500, "An unexpected error occurred.") && o.after == doctors
    ensures o.response.status == 400 <==> email.Some? && !IsEmail(email.value)
    ensures email.Some? && IsEmail(email.value) ==> o.response.success
    ensures email.Some? ==> o.after == IssueResetCode(doctors, email.value, OtpCode(draw), now).1
  {
    match email
    case None => Outcome(Fail(500, "An unexpected error occurred."), doctors)
    case Some(e) =>
      var (verdict, after) := IssueResetCode(doctors, e, OtpCode(draw), now);
      match verdict
      case InvalidEmail => Outcome(Fail(400, "Please enter a valid email."), doctors)
      case NoSuchAccount =>
        Outcome(Ok("If a doctor account with that email exists, a password reset code has been sent.", None), doctors)
      case CodeIssued => Outcome(Ok("A password reset code has been sent to your email.", None), after)
  }

  /**
   * The reply to a reset request tells whether a verified account holds the address, which
   * the handler's own comment says it means to hide.
   */
  lemma ResetRequestRevealsAccount(without: seq<Doctor>, with: seq<Doctor>, email: string, draw: nat, now: nat)
    requires IsOtpDraw(draw) && IsEmail(email)
    requires FindOne(without, VerifiedEmail(email)).None? && FindOne(with, VerifiedEmail(email)).Some?
    ensures RequestDoctorPasswordReset(without, Some(email), draw, now).response
         != RequestDoctorPasswordReset(with, Some(email), draw, now).response
  {
    assert IssueResetCode(without, email, OtpCode(draw), now).0 == NoSuchAccount;
    assert IssueResetCode(with, email, OtpCode(draw), now).0 == CodeIssued;
    var a := RequestDoctorPasswordReset(without, Some(email), draw, now).response.message;
    var b := RequestDoctorPasswordReset(with, Some(email), draw, now).response.message;
    assert a == "If a doctor account with that email exists, a password reset code has been sent.";
    assert b == "A password reset code has been sent to your email.";
    assert |a| != |b|;
  }

  /** The reply every well-formed address gets from the corrected reset request. */
  const ResetRequestAnswer: string := "If a doctor account with that email exists, a password reset code has been sent."

  /** The reset request with one reply for every well-formed address, as the handler intends. */
  function RequestDoctorPasswordResetUniform(doctors: seq<Doctor>, email: Option<string>, draw: nat, now: nat)
    : (o: Outcome<(), seq<Doctor>>)
    requires IsOtpDraw(draw)
    ensures o.response.status == 500 <==> email.None?
    ensures o.response.status == 400 <==> email.Some? && !IsEmail(email.value)
    ensures email.Some? && IsEmail(email.value) ==> o.response == Ok(ResetRequestAnswer, None)
    ensures o.after == RequestDoctorPasswordReset(doctors, email, draw, now).after
  {
    match email
    case None => Outcome(Fail(500, "An unexpected error occurred."), doctors)
    case Some(e) =>
      var (verdict, after) := IssueResetCode(doctors, e, OtpCode(draw), now);
      match verdict
      case InvalidEmail => Outcome(Fail(400, "Please enter a valid email."), doctors)
      case _ => Outcome(Ok(ResetRequestAnswer, None), after)
  }

  /** With the uniform reply, nothing in the answer depends on which accounts exist. */
  lemma UniformResetHidesAccount(s: seq<Doctor>, t: seq<Doctor>, email: Option<string>, draw: nat, now: nat)
    requires IsOtpDraw(draw)
    ensures RequestDoctorPasswordResetUniform(s, email, draw, now).response
         == RequestDoctorPasswordResetUniform(t, email, draw, now).response
  {
  }

  /** `resetDoctorPassword`. */
  function ResetDoctorPassword(doctors: seq<Doctor>, email: string, code: string, newPassword: string, now: nat)
    : (o: Outcome<(), seq<Doctor>>)
    ensures o.response.success <==> ResetWithCode(doctors, email, code, newPassword, now).0 == PasswordReplaced
    ensures !o.response.success ==> o.response.status == 400 && o.after == doctors
    ensures o.after == ResetWithCode(doctors, email, code, newPassword, now).1
  {
    var (verdict, after) := ResetWithCode(doctors, email, code, newPassword, now);
    match verdict
    case MissingInput =>
      Outcome(Fail(400, "Please provide a valid code and a new password of at least 8 characters."), doctors)
    case InvalidCode => Outcome(Fail(400, "The code is invalid or has expired."), doctors)
    case PasswordReplaced =>
      Outcome(Ok("Password has been reset successfully. You can now log in.", None), after)
  }

  // ---------------------------------------------------------------- profile and availability

  /** The profile fields of an update body; an absent field (`undefined`) is dropped from the update. */
  datatype ProfilePatch = ProfilePatch(
    speciality: Option<string>,
    degree: Option<string>,
    experience: Option<string>,
    about: Option<string>,
    fees: Option<int>,
    available: Option<bool>)

  /** The update a doctor's own profile form makes: given fields replaced, an uploaded image stored, status complete. */
  function ApplyOwnPatch(p: DoctorProfile, patch: ProfilePatch, upload: Option<string>): (q: DoctorProfile)
    ensures q.profileStatus == Complete
    ensures q.image == upload.Or(p.image)
    ensures q.speciality == patch.speciality.Or(p.speciality)
    ensures q.degree == patch.degree.Or(p.degree)
    ensures q.experience == patch.experience.Or(p.experience)
    ensures q.about == patch.about.Or(p.about)
    ensures q.fees == patch.fees.Or(p.fees)
    ensures q.available == patch.available.GetOr(p.available)
  {
    DoctorProfile(
      upload.Or(p.image),
      patch.speciality.Or(p.speciality),
      patch.degree.Or(p.degree),
      patch.experience.Or(p.experience),
      patch.about.Or(p.about),
      patch.available.GetOr(p.available),
      patch.fees.Or(p.fees),
      Complete)
  }

  /** Sending the same profile form twice leaves the profile as sending it once. */
  lemma ApplyOwnPatchIdempotent(p: DoctorProfile, patch: ProfilePatch, upload: Option<string>)
    ensures ApplyOwnPatch(ApplyOwnPatch(p, patch, upload), patch, upload) == ApplyOwnPatch(p, patch, upload)
  {
  }

  /** `updateDoctorProfile`: the caller's profile, updated and returned without its password. */
  function UpdateDoctorProfile(doctors: seq<Doctor>, docId: nat, patch: ProfilePatch, upload: Option<string>)
    : (o: Outcome<AccountView<DoctorProfile>, seq<Doctor>>)
    ensures o.response.success <==> FindOne(doctors, ById(docId)).Some?
    ensures !o.response.success ==> o.response == Fail(404, "Doctor not found.") && o.after == doctors
    ensures o.response.success ==>
      var i := FindOne(doctors, ById(docId)).value;
      && |o.after| == |doctors|
      && o.after[i] == doctors[i].(profile := ApplyOwnPatch(doctors[i].profile, patch, upload))
      && o.after[i].profile.profileStatus == Complete
      && o.response.data == Some(View(o.after[i]))
      && forall j :: 0 <= j < |doctors| && j != i ==> o.after[j] == doctors[j]
  {
    match FindOne(doctors, ById(docId))
    case None => Outcome(Fail(404, "Doctor not found."), doctors)
    case Some(i) =>
      var d := doctors[i].(profile := ApplyOwnPatch(doctors[i].profile, patch, upload));
      Outcome(Ok("Profile Updated Successfully", Some(View(d))), doctors[i := d])
  }

  /**
   * `changeAvailablity`: flips `available`. An unknown id makes `docData.available` read a
   * property of `null`, which throws and is answered with 500 and the error's message.
   */
  function ChangeAvailability(doctors: seq<Doctor>, docId: nat): (o: Outcome<(), seq<Doctor>>)
    ensures o.response.success <==> FindOne(doctors, ById(docId)).Some?
    ensures !o.response.success ==> o.response.status == 500 && o.after == doctors
    ensures o.response.success ==>
      var i := FindOne(doctors, ById(docId)).value;
      && |o.after| == |doctors|
      && o.after[i].profile.available == !doctors[i].profile.available
      && o.after[i] == doctors[i].(profile := doctors[i].profile.(available := o.after[i].profile.available))
      && forall j :: 0 <= j < |doctors| && j != i ==> o.after[j] == doctors[j]
  {
    match FindOne(doctors, ById(docId))
    case None => Outcome(Fail(500, "Cannot read properties of null (reading 'available')"), doctors)
    case Some(i) =>
      var d := doctors[i];
      Outcome(Ok("Availability Changed", None), doctors[i := d.(profile := d.profile.(available := !d.profile.available))])
  }

  /** Changing availability twice restores every record. */
  lemma ChangeAvailabilityTwice(doctors: seq<Doctor>, docId: nat)
    ensures ChangeAvailability(ChangeAvailability(doctors, docId).after, docId).after == doctors
  {
    var once := ChangeAvailability(doctors, docId).after;
    match FindOne(doctors, ById(docId))
    case None =>
    case Some(i) =>
      FindOneAfterUpdate(doctors, i, once[i], ById(docId));
      assert once == doctors[i := once[i]];
  }

  // ---------------------------------------------------------------- dashboard and consultations

  /** The doctor dashboard's figures. */
  datatype DoctorDash = DoctorDash(earnings: int, activeChats: nat, totalPatients: nat, latestChats: seq<Chat>)

  /**
   * `doctorDashboard` over the caller's paid chats: the sum of their amounts, how many are
   * unexpired (`expiresAt > now`), how many distinct patients they have, and the five most
   * recently updated.
   */
  function DoctorDashboard(chats: seq<Chat>, doctorId: nat, now: nat): (r: Response<DoctorDash>)
    ensures r.success && r.data.Some?
    ensures var paid := Select(chats, PaidOfDoctor(doctorId)); var dash := r.data.value;
      && dash.earnings == SumAmounts(paid)
      && dash.totalPatients == |PatientIds(paid)| <= |paid|
      && dash.activeChats == |Select(chats, ActiveOfDoctor(doctorId, now))| <= |paid|
      && dash.latestChats == Latest(paid, ByUpdatedAt)
      && forall c :: c in dash.latestChats ==> c in chats && c.doctorId == doctorId && c.paymentStatus
  {
    var paid := Select(chats, PaidOfDoctor(doctorId));
    var active := Select(chats, ActiveOfDoctor(doctorId, now));
    SelectNarrower(chats, ActiveOfDoctor(doctorId, now), PaidOfDoctor(doctorId));
    var latest := Latest(paid, ByUpdatedAt);
    forall c | c in latest ensures c in chats && c.doctorId == doctorId && c.paymentStatus {
      assert c in paid;
      assert Matches(c, PaidOfDoctor(doctorId));
    }
    var patients := PatientIds(paid);
    Ok("", Some(DoctorDash(SumAmounts(paid), |active|, |patients|, latest)))
  }

  /** `getDoctorChats`: the caller's paid chats, most recently updated first. */
  function GetDoctorChats(chats: seq<Chat>, doctorId: nat): (r: Response<seq<Chat>>)
    ensures r.success && r.data.Some?
    ensures forall c :: c in r.data.value <==> c in chats && c.doctorId == doctorId && c.paymentStatus
    ensures SortedDesc(r.data.value, ByUpdatedAt)
    ensures multiset(r.data.value) == multiset(Select(chats, PaidOfDoctor(doctorId)))
  {
    var paid := Select(chats, PaidOfDoctor(doctorId));
    var mine := SortDesc(paid, ByUpdatedAt);
    MultisetSameMembers(mine, paid);
    Ok("", Some(mine))
  }

  /** `getSingleDoctorChat`: the chat with that id, only if it is the caller's. */
  function GetSingleDoctorChat(chats: seq<Chat>, doctorId: nat, chatId: nat): (r: Response<Chat>)
    ensures r.success <==> exists i :: 0 <= i < |chats| && chats[i].id == chatId && chats[i].doctorId == doctorId
    ensures r.success ==> r.data.Some? && r.data.value in chats && r.data.value.id == chatId && r.data.value.doctorId == doctorId
    ensures !r.success ==> r == Fail(404, "Chat not found or access denied.")
  {
    match FindChat(chats, OfDoctor(chatId, doctorId))
    case None => Fail(404, "Chat not found or access denied.")
    case Some(i) => Ok("", Some(chats[i]))
  }

  /** `doctorReplyToChat`: a non-blank reply goes onto the caller's chat, paid or not, expired or not. */
  function DoctorReplyToChat(chats: seq<Chat>, doctorId: nat, chatId: nat, text: string, now: nat)
    : (o: Outcome<Chat, seq<Chat>>)
    ensures o.response.status == 400 <==> IsBlank(text)
    ensures o.response.status == 404 <==> !IsBlank(text) && FindChat(chats, OfDoctor(chatId, doctorId)).None?
    ensures !o.response.success ==> o.after == chats
    ensures o.response.success ==>
      && FindChat(chats, OfDoctor(chatId, doctorId)).Some?
      && var i := FindChat(chats, OfDoctor(chatId, doctorId)).value;
      && chats[i].id == chatId && chats[i].doctorId == doctorId
      && |o.after| == |chats|
      && o.after[i] == Push(chats[i], FromDoctor, text, now)
      && o.response.data == Some(o.after[i])
      && forall j :: 0 <= j < |chats| && j != i ==> o.after[j] == chats[j]
  {
    if EmptyText(text) then Outcome(Fail(400, "Reply cannot be empty."), chats)
    else
      var found := FindChat(chats, OfDoctor(chatId, doctorId));
      if found.None? then Outcome(Fail(404, "Chat session not found or access denied."), chats)
      else
        var i := found.value;
        var c := Push(chats[i], FromDoctor, text, now);
        var after := chats[i := c];
        assert |after| == |chats| && after[i] == c;
        Outcome(Ok("Reply sent successfully.", Some(c)), after)
  }
}
