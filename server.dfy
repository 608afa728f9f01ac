/**
 * The server's stored state and the handlers that write it. The three collections (patients,
 * doctors, consultations) are fields of one `Database`; each method performs one handler the
 * way the handler does it (look the record up, check, assign its fields, save or insert) and
 * is proved to reply and write exactly as the handler's function in the controller modules
 * says, while keeping the store's invariant.
 *
 * The password-reset request for doctors is the corrected one, which answers every
 * well-formed address alike.
 */
module Server {
  import opened Wrappers
  import opened Text
  import opened Crypto
  import opened Http
  import opened Accounts
  import opened AccountFlows
  import opened Chats
  import opened ChatQueries
  import UserController
  import DoctorController
  import AdminController

  /** Every chat names a patient and a doctor that exist (the ids the guards admitted). */
  predicate ChatOwnersExist(chats: seq<Chat>, patients: nat, doctors: nat) {
    forall i :: 0 <= i < |chats| ==>
      IsIdOf(PatientRole, patients, chats[i].userId) && IsIdOf(DoctorRole, doctors, chats[i].doctorId)
  }

  /** Changing one record's other fields keeps e-mails unique and ids positional. */
  lemma SameKeysKeepInvariants<P>(s: seq<Account<P>>, t: seq<Account<P>>, role: Role)
    requires UniqueEmails(s) && IdsArePositions(s, role) && |t| == |s|
    requires forall j :: 0 <= j < |s| ==> t[j].email == s[j].email && t[j].id == s[j].id
    ensures UniqueEmails(t) && IdsArePositions(t, role)
  {
  }

  /** A chat collection in which each chat evolved keeps its ids and owners. */
  lemma EvolvedChatsKeepInvariants(s: seq<Chat>, t: seq<Chat>, patients: nat, doctors: nat)
    requires ChatIdsArePositions(s) && ChatOwnersExist(s, patients, doctors)
    requires |t| == |s| && CollectionEvolves(s, t)
    ensures ChatIdsArePositions(t) && ChatOwnersExist(t, patients, doctors)
  {
    assert forall j :: 0 <= j < |s| ==> Evolves(s[j], t[j]);
  }

  class Database {
    var users: seq<Patient>
    var doctors: seq<Doctor>
    var chats: seq<Chat>

    /**
     * E-mails are unique in both account collections, and ids follow positions, even for patients
     * and odd for doctors; chats are positional and name a patient and a doctor that exist.
     */
    predicate Valid()
      reads this
    {
      && UniqueEmails(users) && IdsArePositions(users, PatientRole)
      && UniqueEmails(doctors) && IdsArePositions(doctors, DoctorRole)
      && ChatIdsArePositions(chats) && ChatOwnersExist(chats, |users|, |doctors|)
    }

    constructor ()
      ensures Valid() && users == [] && doctors == [] && chats == []
    {
      users := [];
      doctors := [];
      chats := [];
    }

    // ------------------------------------------------------------ patient accounts

    /** `requestUserRegistrationOTP`: validate, refuse a verified address, else upsert the pending record. */
    method RequestUserRegistrationOtp(name: string, email: string, password: string, draw: nat, now: nat)
      returns (r: Response<()>)
      requires Valid() && IsOtpDraw(draw)
      modifies this
      ensures Valid()
      ensures var o := UserController.RequestUserRegistrationOtp(old(users), name, email, password, draw, now);
        r == o.response && users == o.after
      ensures doctors == old(doctors) && chats == old(chats)
    {
      if !(name != "" && email != "" && password != "" && IsEmail(email) && |password| >= 8) {
        return Fail(400, "Please provide all valid details.");
      }
      if FindOne(users, VerifiedEmail(email)).Some? {
        return Refuse("User with this email already exists.");
      }
      RegisterPendingInvariants(users, PatientRole, name, email, password, OtpCode(draw), now, ());
      var otp := Some(Hash(OtpCode(draw)));
      var expires := Some(now + OtpLifetimeMs);
      match FindOne(users, UnverifiedEmail(email)) {
        case Some(i) =>
          var user := users[i];
          user := user.(name := name, password := Hash(password));
          user := user.(otp := otp, otpExpires := expires, isVerified := false);
          users := users[i := user];
        case None =>
          var user := NewAccount(IdAt(PatientRole, |users|), name, email, Hash(password), ());
          user := user.(otp := otp, otpExpires := expires);
          users := users + [user];
      }
      r := Ok("OTP sent to your email. Please verify.", None);
    }

    /** `verifyUserOTP`: the checks in order, then `isVerified = true` and the code pair cleared. */
    method VerifyUserOtp(email: string, code: Option<string>, now: nat) returns (r: Response<()>)
      requires Valid()
      modifies this
      ensures Valid()
      ensures var o := UserController.VerifyUserOtp(old(users), email, code, now);
        r == o.response && users == o.after
      ensures doctors == old(doctors) && chats == old(chats)
    {
      VerifyCodeInvariants(users, PatientRole, email, code, now);
      var found := FindOne(users, ByEmail(email));
      if found.None? {
        return Fail(400, "Verification failed. Code may be invalid or expired.");
      }
      var i := found.value;
      var user := users[i];
      if user.isVerified || OtpExpired(user, now) {
        return Fail(400, "Verification failed. Code may be invalid or expired.");
      }
      if code.None? || user.otp.None? {
        return Fail(500, "Error during verification.");
      }
      if !Compare(code.value, user.otp.value) {
        return Fail(400, "Invalid OTP.");
      }
      user := user.(isVerified := true);
      user := user.(otp := None);
      user := user.(otpExpires := None);
      users := users[i := user];
      r := Ok("Email verified successfully!", None);
    }

    /** `requestPasswordReset`: a verified account gets the plain-text code and its expiry. */
    method RequestPasswordReset(email: Option<string>, draw: nat, now: nat) returns (r: Response<()>)
      requires Valid() && IsOtpDraw(draw)
      modifies this
      ensures Valid()
      ensures var o := UserController.RequestPasswordReset(old(users), email, draw, now);
        r == o.response && users == o.after
      ensures doctors == old(doctors) && chats == old(chats)
    {
      if email.None? {
        return Fail(500, "An unexpected error occurred.");
      }
      ResetFlowsInvariants(users, PatientRole, email.value, OtpCode(draw), "", now);
      if !IsEmail(email.value) {
        return Fail(400, "Please enter a valid email.");
      }
      var found := FindOne(users, VerifiedEmail(email.value));
      if found.None? {
        return Ok("If an account with that email exists, a password reset code has been sent.", None);
      }
      var i := found.value;
      var user := users[i];
      user := user.(resetCode := Some(OtpCode(draw)));
      user := user.(resetExpires := Some(now + OtpLifetimeMs));
      users := users[i := user];
      r := Ok("A password reset code has been sent to your email.", None);
    }

    /** `resetPassword`: the new digest stored and the reset pair cleared on the record holding the code. */
    method ResetPassword(email: string, code: string, newPassword: string, now: nat) returns (r: Response<()>)
      requires Valid()
      modifies this
      ensures Valid()
      ensures var o := UserController.ResetPassword(old(users), email, code, newPassword, now);
        r == o.response && users == o.after
      ensures doctors == old(doctors) && chats == old(chats)
    {
      ResetFlowsInvariants(users, PatientRole, email, "", newPassword, now);
      ResetFlowsInvariants(users, PatientRole, email, code, newPassword, now);
      if code == "" || |newPassword| < 8 {
        return Fail(400, "Please provide a valid code and a new password of at least 8 characters.");
      }
      var found := FindOne(users, ByResetCode(email, code, now));
      if found.None? {
        return Fail(400, "The code is invalid or has expired. Please request a new one.");
      }
      var i := found.value;
      var user := users[i];
      user := user.(password := Hash(newPassword));
      user := user.(resetCode := None);
      user := user.(resetExpires := None);
      users := users[i := user];
      r := Ok("Password has been reset successfully. You can now log in.", None);
    }

    // ------------------------------------------------------------ patient consultations

    /** `startChat` for a signed-in patient: a free, paid-up chat with a day's lifetime is inserted. */
    method StartChat(userId: nat, doctorId: nat, now: nat) returns (r: Response<Chat>)
      requires Valid() && IsIdOf(PatientRole, |users|, userId)
      modifies this
      ensures Valid()
      ensures var o := UserController.StartChat(old(doctors), old(chats), userId, doctorId, now);
        r == o.response && chats == o.after
      ensures users == old(users) && doctors == old(doctors)
    {
      var found := FindOne(doctors, ById(doctorId));
      if found.None? || !doctors[found.value].profile.available {
        return Fail(400, "Doctor is not available for chat.");
      }
      FindById(doctors, DoctorRole, doctorId);
      var chat := CreateChat(|chats|, userId, doctorId, Some(true),
                             PaymentDetails(UserController.FreeOrderId(now), None, None), 0,
                             Some(now + UserController.ChatLifetimeMs), now);
      chats := chats + [chat];
      r := Ok("Chat session started", Some(chat));
    }

    /** `sendChatMessage`: the message pushed onto the caller's paid, unexpired chat, which is saved. */
    method SendChatMessage(userId: nat, chatId: nat, text: string, now: nat) returns (r: Response<Chat>)
      requires Valid()
      modifies this
      ensures Valid()
      ensures var o := UserController.SendChatMessage(old(chats), userId, chatId, text, now);
        r == o.response && chats == o.after
      ensures CollectionEvolves(old(chats), chats)
      ensures users == old(users) && doctors == old(doctors)
    {
      UserController.SendKeepsHistory(chats, userId, chatId, text, now);
      EvolvedChatsKeepInvariants(chats, UserController.SendChatMessage(chats, userId, chatId, text, now).after,
                                 |users|, |doctors|);
      if EmptyText(text) {
        return Fail(400, "Message cannot be empty");
      }
      var found := FindChat(chats, Sendable(chatId, userId, now));
      if found.None? {
        return Fail(403, "Chat not found or access denied");
      }
      var i := found.value;
      var chat := chats[i];
      chat := chat.(messages := chat.messages + [Message(FromUser, text, now)]);
      chat := chat.(updatedAt := now);
      chats := chats[i := chat];
      r := Ok("Message sent", Some(chat));
    }

    // ------------------------------------------------------------ doctor accounts

    /** `requestDoctorRegistrationOTP`: no validation; a missing password throws at hashing. */
    method RequestDoctorRegistrationOtp(name: string, email: string, password: Option<string>, draw: nat, now: nat)
      returns (r: Response<()>)
      requires Valid() && IsOtpDraw(draw)
      modifies this
      ensures Valid()
      ensures var o := DoctorController.RequestDoctorRegistrationOtp(old(doctors), name, email, password, draw, now);
        r == o.response && doctors == o.after
      ensures users == old(users) && chats == old(chats)
    {
      if FindOne(doctors, VerifiedEmail(email)).Some? {
        return Refuse("Doctor with this email already exists.");
      }
      if password.None? {
        return Fail(500, "Error sending OTP.");
      }
      RegisterPendingInvariants(doctors, DoctorRole, name, email, password.value, OtpCode(draw), now, NewDoctorProfile);
      var otp := Some(Hash(OtpCode(draw)));
      var expires := Some(now + OtpLifetimeMs);
      match FindOne(doctors, UnverifiedEmail(email)) {
        case Some(i) =>
          var doctor := doctors[i];
          doctor := doctor.(name := name, password := Hash(password.value));
          doctor := doctor.(otp := otp, otpExpires := expires, isVerified := false);
          doctors := doctors[i := doctor];
        case None =>
          var doctor := NewAccount(IdAt(DoctorRole, |doctors|), name, email, Hash(password.value), NewDoctorProfile);
          doctor := doctor.(otp := otp, otpExpires := expires);
          doctors := doctors + [doctor];
      }
      r := Ok("OTP sent to your email. Please verify.", None);
    }

    /** `verifyDoctorOTP`: one refusal per failed check; on success `isVerified` set and `otp`, `otpExpires` cleared. */
    method VerifyDoctorOtp(email: string, code: Option<string>, now: nat) returns (r: Response<()>)
      requires Valid()
      modifies this
      ensures Valid()
      ensures var o := DoctorController.VerifyDoctorOtp(old(doctors), email, code, now);
        r == o.response && doctors == o.after
      ensures users == old(users) && chats == old(chats)
    {
      VerifyCodeInvariants(doctors, DoctorRole, email, code, now);
      var found := FindOne(doctors, ByEmail(email));
      if found.None? {
        return Refuse("Signup process not initiated for this email.");
      }
      var i := found.value;
      var doctor := doctors[i];
      if doctor.isVerified {
        return Refuse("This email is already verified.");
      }
      if OtpExpired(doctor, now) {
        return Refuse("OTP has expired. Please try signing up again.");
      }
      if code.None? || doctor.otp.None? {
        return Fail(500, "Error during verification.");
      }
      if !Compare(code.value, doctor.otp.value) {
        return Refuse("Invalid OTP.");
      }
      doctor := doctor.(isVerified := true);
      doctor := doctor.(otp := None);
      doctor := doctor.(otpExpires := None);
      doctors := doctors[i := doctor];
      r := Ok("Email verified successfully! Please log in to continue.", None);
    }

    /** The doctor's reset request, answering every well-formed address with the same reply. */
    method RequestDoctorPasswordReset(email: Option<string>, draw: nat, now: nat) returns (r: Response<()>)
      requires Valid() && IsOtpDraw(draw)
      modifies this
      ensures Valid()
      ensures var o := DoctorController.RequestDoctorPasswordResetUniform(old(doctors), email, draw, now);
        r == o.response && doctors == o.after
      ensures users == old(users) && chats == old(chats)
    {
      if email.None? {
        return Fail(500, "An unexpected error occurred.");
      }
      ResetFlowsInvariants(doctors, DoctorRole, email.value, OtpCode(draw), "", now);
      if !IsEmail(email.value) {
        return Fail(400, "Please enter a valid email.");
      }
      var found := FindOne(doctors, VerifiedEmail(email.value));
      if found.Some? {
        var i := found.value;
        var doctor := doctors[i];
        doctor := doctor.(resetCode := Some(OtpCode(draw)));
        doctor := doctor.(resetExpires := Some(now + OtpLifetimeMs));
        doctors := doctors[i := doctor];
      }
      r := Ok(DoctorController.ResetRequestAnswer, None);
    }

    /** `resetDoctorPassword`: the new digest stored and the reset pair cleared on the record holding the code. */
    method ResetDoctorPassword(email: string, code: string, newPassword: string, now: nat) returns (r: Response<()>)
      requires Valid()
      modifies this
      ensures Valid()
      ensures var o := DoctorController.ResetDoctorPassword(old(doctors), email, code, newPassword, now);
        r == o.response && doctors == o.after
      ensures users == old(users) && chats == old(chats)
    {
      ResetFlowsInvariants(doctors, DoctorRole, email, "", newPassword, now);
      ResetFlowsInvariants(doctors, DoctorRole, email, code, newPassword, now);
      if code == "" || |newPassword| < 8 {
        return Fail(400, "Please provide a valid code and a new password of at least 8 characters.");
      }
      var found := FindOne(doctors, ByResetCode(email, code, now));
      if found.None? {
        return Fail(400, "The code is invalid or has expired.");
      }
      var i := found.value;
      var doctor := doctors[i];
      doctor := doctor.(password := Hash(newPassword));
      doctor := doctor.(resetCode := None);
      doctor := doctor.(resetExpires := None);
      doctors := doctors[i := doctor];
      r := Ok("Password has been reset successfully. You can now log in.", None);
    }

    // ------------------------------------------------------------ doctor profile and consultations

    /** `updateDoctorProfile`: the caller's profile fields replaced and its status completed. */
    method UpdateDoctorProfile(docId: nat, patch: DoctorController.ProfilePatch, upload: Option<string>)
      returns (r: Response<AccountView<DoctorProfile>>)
      requires Valid()
      modifies this
      ensures Valid()
      ensures var o := DoctorController.UpdateDoctorProfile(old(doctors), docId, patch, upload);
        r == o.response && doctors == o.after
      ensures users == old(users) && chats == old(chats)
    {
      var found := FindOne(doctors, ById(docId));
      if found.None? {
        return Fail(404, "Doctor not found.");
      }
      var i := found.value;
      var doctor := doctors[i];
      doctor := doctor.(profile := DoctorController.ApplyOwnPatch(doctor.profile, patch, upload));
      SameKeysKeepInvariants(doctors, doctors[i := doctor], DoctorRole);
      doctors := doctors[i := doctor];
      r := Ok("Profile Updated Successfully", Some(View(doctor)));
    }

    /** `changeAvailablity`: `available` negated and saved. */
    method ChangeAvailability(docId: nat) returns (r: Response<()>)
      requires Valid()
      modifies this
      ensures Valid()
      ensures var o := DoctorController.ChangeAvailability(old(doctors), docId);
        r == o.response && doctors == o.after
      ensures users == old(users) && chats == old(chats)
    {
      var found := FindOne(doctors, ById(docId));
      if found.None? {
        return Fail(500, "Cannot read properties of null (reading 'available')");
      }
      var i := found.value;
      var doctor := doctors[i];
      doctor := doctor.(profile := doctor.profile.(available := !doctor.profile.available));
      SameKeysKeepInvariants(doctors, doctors[i := doctor], DoctorRole);
      doctors := doctors[i := doctor];
      r := Ok("Availability Changed", None);
    }

    /** `doctorReplyToChat`: the reply pushed onto the caller's chat with no payment or expiry check. */
    method DoctorReplyToChat(doctorId: nat, chatId: nat, text: string, now: nat) returns (r: Response<Chat>)
      requires Valid()
      modifies this
      ensures Valid()
      ensures var o := DoctorController.DoctorReplyToChat(old(chats), doctorId, chatId, text, now);
        r == o.response && chats == o.after
      ensures CollectionEvolves(old(chats), chats)
      ensures users == old(users) && doctors == old(doctors)
    {
      if EmptyText(text) {
        assert forall j :: 0 <= j < |chats| ==> chats[j].messages[..|chats[j].messages|] == chats[j].messages;
        return Fail(400, "Reply cannot be empty.");
      }
      var found := FindChat(chats, OfDoctor(chatId, doctorId));
      if found.None? {
        assert forall j :: 0 <= j < |chats| ==> chats[j].messages[..|chats[j].messages|] == chats[j].messages;
        return Fail(404, "Chat session not found or access denied.");
      }
      var i := found.value;
      var chat := chats[i];
      chat := chat.(messages := chat.messages + [Message(FromDoctor, text, now)]);
      chat := chat.(updatedAt := now);
      assert Evolves(chats[i], chat);
      assert forall j :: 0 <= j < |chats| ==> chats[j].messages[..|chats[j].messages|] == chats[j].messages;
      EvolvedChatsKeepInvariants(chats, chats[i := chat], |users|, |doctors|);
      chats := chats[i := chat];
      r := Ok("Reply sent successfully.", Some(chat));
    }

    // ------------------------------------------------------------ admin

    /** `addDoctor`: checks, then a new record with the defaults, or the duplicate-key refusal. */
    method AddDoctor(name: string, email: string, password: string) returns (r: Response<()>)
      requires Valid()
      modifies this
      ensures Valid()
      ensures var o := AdminController.AddDoctor(old(doctors), name, email, password);
        r == o.response && doctors == o.after
      ensures users == old(users) && chats == old(chats)
    {
      AdminController.AddDoctorInvariants(doctors, name, email, password);
      if name == "" || email == "" || password == "" {
        return Fail(400, "Name, email, and password are required.");
      }
      if |password| < 8 {
        return Fail(400, "Password must be at least 8 characters.");
      }
      if FindOne(doctors, ByEmail(email)).Some? {
        return Fail(400, "A doctor with this email already exists.");
      }
      var doctor := NewAccount(IdAt(DoctorRole, |doctors|), name, email, Hash(password), NewDoctorProfile);
      doctors := doctors + [doctor];
      r := Ok("Doctor added successfully. The doctor can now log in and complete their profile.", None);
    }

    /** `updateDoctorProfileByAdmin`: the given fields overwritten, status and credentials kept. */
    method UpdateDoctorProfileByAdmin(id: nat, patch: AdminController.AdminPatch, upload: Option<string>)
      returns (r: Response<AccountView<DoctorProfile>>)
      requires Valid()
      modifies this
      ensures Valid()
      ensures var o := AdminController.UpdateDoctorProfileByAdmin(old(doctors), id, patch, upload);
        r == o.response && doctors == o.after
      ensures users == old(users) && chats == old(chats)
    {
      var found := FindOne(doctors, ById(id));
      if found.None? {
        return Fail(404, "Doctor not found.");
      }
      var i := found.value;
      var doctor := AdminController.ApplyAdminPatch(doctors[i], patch, upload);
      SameKeysKeepInvariants(doctors, doctors[i := doctor], DoctorRole);
      doctors := doctors[i := doctor];
      r := Ok("Doctor profile updated successfully.", Some(View(doctor)));
    }
  }
}
