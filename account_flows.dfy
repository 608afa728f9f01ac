/**
 * The one-time-code flows that the patient and doctor controllers run in the same way
 * (backend/controllers/userController.js and doctorController.js): the sign-up code
 * (request, then verify) and the password-reset code (request, then reset).
 *
 * Each flow is a function from a collection to a verdict and the collection afterwards; the
 * controllers turn the verdict into their own reply. Two code pairs live on each record and
 * never touch each other: `otp`/`otpExpires` for sign-up, `resetCode`/`resetExpires` for reset.
 */
module AccountFlows {
  import opened Wrappers
  import opened Crypto
  import opened Text
  import opened Accounts

  /** Codes are valid for ten minutes (`10 * 60 * 1000` ms). */
  const OtpLifetimeMs: nat := 10 * 60 * 1000

  /** The range of `Math.floor(100000 + Math.random() * 900000)`. */
  predicate IsOtpDraw(draw: nat) {
    100000 <= draw <= 999999
  }

  /** `generateOTP()`: the random draw printed as a string, always six decimal digits. */
  function OtpCode(draw: nat): (code: string)
    requires IsOtpDraw(draw)
    ensures |code| == 6
    ensures forall i :: 0 <= i < |code| ==> '0' <= code[i] <= '9'
    ensures DecimalValue(code) == draw
  {
    SixDigits(draw);
    DecimalRoundTrip(draw);
    Decimal(draw)
  }

  // ---------------------------------------------------------------- sign-up code

  datatype Registration = AlreadyRegistered | CodeSent

  /** Where the pending record ends up: the unverified record with that address, else a new one at the end. */
  function PendingPosition<P>(s: seq<Account<P>>, email: string): (k: nat)
    ensures k <= |s|
  {
    match FindOne(s, UnverifiedEmail(email))
    case Some(i) => i
    case None => |s|
  }

  /**
   * The part both registration handlers share once their own input checks pass: refuse an
   * address that already has a verified account; otherwise upsert `{ email, isVerified: false }`
   * with the new name, password digest, code digest and an expiry ten minutes from `now`.
   * An overwritten pending record keeps its id, profile and reset fields; an inserted one takes
   * the role's next id, the schema defaults and `blank` as its profile.
   */
  function RegisterPending<P>(s: seq<Account<P>>, role: Role, name: string, email: string, password: string,
                              code: string, now: nat, blank: P): (r: (Registration, seq<Account<P>>))
    ensures r.0 == AlreadyRegistered <==> FindOne(s, VerifiedEmail(email)).Some?
    ensures r.0 == AlreadyRegistered ==> r.1 == s
    ensures r.0 == CodeSent ==>
      var k := PendingPosition(s, email);
      && |r.1| == (if k == |s| then |s| + 1 else |s|)
      && r.1[k].email == email && r.1[k].name == name && !r.1[k].isVerified
      && r.1[k].password == Hash(password)
      && r.1[k].otp == Some(Hash(code)) && r.1[k].otpExpires == Some(now + OtpLifetimeMs)
      && (k < |s| ==> && r.1[k].id == s[k].id && r.1[k].profile == s[k].profile
                      && r.1[k].resetCode == s[k].resetCode && r.1[k].resetExpires == s[k].resetExpires)
      && (k == |s| ==> && r.1[k].id == IdAt(role, |s|) && r.1[k].profile == blank
                       && r.1[k].resetCode.None? && r.1[k].resetExpires.None?)
      && forall j :: 0 <= j < |s| && j != k ==> r.1[j] == s[j]
  {
    if FindOne(s, VerifiedEmail(email)).Some? then
      (AlreadyRegistered, s)
    else
      var expires := Some(now + OtpLifetimeMs);
      match FindOne(s, UnverifiedEmail(email))
      case Some(i) =>
        (CodeSent, s[i := s[i].(name := name, password := Hash(password), otp := Some(Hash(code)),
                                otpExpires := expires, isVerified := false)])
      case None =>
        var a := NewAccount(IdAt(role, |s|), name, email, Hash(password), blank);
        (CodeSent, s + [a.(otp := Some(Hash(code)), otpExpires := expires)])
  }

  /** Registration never disturbs a verified account, and keeps e-mails unique and ids positional. */
  lemma RegisterPendingInvariants<P>(s: seq<Account<P>>, role: Role, name: string, email: string, password: string,
                                     code: string, now: nat, blank: P)
    requires UniqueEmails(s) && IdsArePositions(s, role)
    ensures var t := RegisterPending(s, role, name, email, password, code, now, blank).1;
      && UniqueEmails(t) && IdsArePositions(t, role)
      && forall j :: 0 <= j < |s| && s[j].isVerified ==> t[j] == s[j]
  {
    var r := RegisterPending(s, role, name, email, password, code, now, blank);
    var t := r.1;
    var k := PendingPosition(s, email);
    if r.0 == CodeSent {
      if k == |s| {
        forall j | 0 <= j < |s| ensures s[j].email != email {
          assert !Satisfies(s[j], VerifiedEmail(email));
          assert !Satisfies(s[j], UnverifiedEmail(email));
        }
      } else {
        assert Satisfies(s[k], UnverifiedEmail(email));
      }
      forall i, j | 0 <= i < j < |t| ensures t[i].email != t[j].email {
        if i != k && j != k {
          assert t[i] == s[i] && t[j] == s[j];
        } else if i == k {
          assert t[j] == s[j];
        } else {
          assert t[i] == s[i];
        }
      }
      forall j | 0 <= j < |s| && s[j].isVerified ensures t[j] == s[j] {
        assert !Satisfies(s[j], UnverifiedEmail(email)) || j != k;
      }
    }
  }

  /** How a verification attempt ends; `CompareThrows` is `bcrypt.compare` rejecting a missing code or digest. */
  datatype Verification = NoRecord | AlreadyVerified | CodeExpired | CompareThrows | WrongCode | Verified

  /** `record.otpExpires < new Date()`; a missing expiry compares as false. */
  predicate OtpExpired<P>(a: Account<P>, now: nat) {
    a.otpExpires.Some? && a.otpExpires.value < now
  }

  /**
   * Verifying a sign-up code, with the checks in the order both handlers make them: the record
   * found by e-mail must exist, be unverified and unexpired; then `bcrypt.compare` throws when
   * the body has no code (`None`) or the record holds no digest, and otherwise the code must
   * match. Each verdict holds in exactly its own case. Success sets `isVerified` and clears the
   * sign-up pair; every other outcome changes nothing.
   */
  function VerifyCode<P>(s: seq<Account<P>>, email: string, code: Option<string>, now: nat)
    : (r: (Verification, seq<Account<P>>))
    ensures r.0 != Verified ==> r.1 == s
    ensures r.0 == NoRecord <==> FindOne(s, ByEmail(email)).None?
    ensures r.0 == AlreadyVerified <==>
      var f := FindOne(s, ByEmail(email));
      f.Some? && s[f.value].isVerified
    ensures r.0 == CodeExpired <==>
      var f := FindOne(s, ByEmail(email));
      f.Some? && !s[f.value].isVerified && OtpExpired(s[f.value], now)
    ensures r.0 == CompareThrows <==>
      var f := FindOne(s, ByEmail(email));
      f.Some? && !s[f.value].isVerified && !OtpExpired(s[f.value], now) && (code.None? || s[f.value].otp.None?)
    ensures r.0 == WrongCode <==>
      var f := FindOne(s, ByEmail(email));
      && f.Some? && !s[f.value].isVerified && !OtpExpired(s[f.value], now) && code.Some? && s[f.value].otp.Some?
      && s[f.value].otp != Some(Hash(code.value))
    ensures r.0 == Verified <==>
      var f := FindOne(s, ByEmail(email));
      f.Some? && !s[f.value].isVerified && !OtpExpired(s[f.value], now) && code.Some?
      && s[f.value].otp == Some(Hash(code.value))
    ensures r.0 == Verified ==>
      var i := FindOne(s, ByEmail(email)).value;
      && |r.1| == |s| && r.1[i].isVerified && r.1[i].otp.None? && r.1[i].otpExpires.None?
      && r.1[i].password == s[i].password && r.1[i].email == s[i].email && r.1[i].id == s[i].id
      && r.1[i].resetCode == s[i].resetCode && r.1[i].resetExpires == s[i].resetExpires
      && r.1[i].profile == s[i].profile
      && forall j :: 0 <= j < |s| && j != i ==> r.1[j] == s[j]
  {
    match FindOne(s, ByEmail(email))
    case None => (NoRecord, s)
    case Some(i) =>
      var a := s[i];
      if a.isVerified then (AlreadyVerified, s)
      else if OtpExpired(a, now) then (CodeExpired, s)
      else if code.None? || a.otp.None? then (CompareThrows, s)
      else if !Compare(code.value, a.otp.value) then (WrongCode, s)
      else (Verified, s[i := a.(isVerified := true, otp := None, otpExpires := None)])
  }

  /** A sign-up code works once: after a success, every further attempt for that address is refused. */
  lemma VerifyIsSingleUse<P>(s: seq<Account<P>>, email: string, code: Option<string>, now: nat,
                             again: Option<string>, later: nat)
    requires VerifyCode(s, email, code, now).0 == Verified
    ensures VerifyCode(VerifyCode(s, email, code, now).1, email, again, later).0 == AlreadyVerified
  {
    var i := FindOne(s, ByEmail(email)).value;
    var t := VerifyCode(s, email, code, now).1;
    assert t == s[i := t[i]];
    FindOneAfterUpdate(s, i, t[i], ByEmail(email));
  }

  /**
   * Sign-up round trip: right after a registration, the emailed code verifies the address
   * until ten minutes have passed (the expiry instant itself still counts), any other code is
   * refused, and a body without a code makes the comparison throw.
   */
  lemma RegisterThenVerify<P>(s: seq<Account<P>>, role: Role, name: string, email: string, password: string,
                              code: string, now: nat, blank: P, attempt: Option<string>, later: nat)
    requires UniqueEmails(s) && IdsArePositions(s, role)
    requires RegisterPending(s, role, name, email, password, code, now, blank).0 == CodeSent
    ensures var t := RegisterPending(s, role, name, email, password, code, now, blank).1;
      VerifyCode(t, email, attempt, later).0 ==
        if later > now + OtpLifetimeMs then CodeExpired
        else if attempt.None? then CompareThrows
        else if attempt == Some(code) then Verified
        else WrongCode
  {
    var t := RegisterPending(s, role, name, email, password, code, now, blank).1;
    var k := PendingPosition(s, email);
    RegisterPendingInvariants(s, role, name, email, password, code, now, blank);
    FindByUniqueEmail(t, k);
  }

  // ---------------------------------------------------------------- password-reset code

  datatype ResetRequest = InvalidEmail | NoSuchAccount | CodeIssued

  /**
   * Requesting a reset code: an address that fails the e-mail check is refused; one without a
   * verified account changes nothing (and the handlers still answer success); otherwise the
   * verified account gets the plain-text code and an expiry ten minutes from `now`.
   */
  function IssueResetCode<P>(s: seq<Account<P>>, email: string, code: string, now: nat): (r: (ResetRequest, seq<Account<P>>))
    ensures r.0 != CodeIssued ==> r.1 == s
    ensures r.0 == InvalidEmail <==> !IsEmail(email)
    ensures r.0 == NoSuchAccount <==> IsEmail(email) && FindOne(s, VerifiedEmail(email)).None?
    ensures r.0 == CodeIssued ==>
      var i := FindOne(s, VerifiedEmail(email)).value;
      && |r.1| == |s|
      && r.1[i] == s[i].(resetCode := Some(code), resetExpires := Some(now + OtpLifetimeMs))
      && forall j :: 0 <= j < |s| && j != i ==> r.1[j] == s[j]
  {
    if !IsEmail(email) then (InvalidEmail, s)
    else match FindOne(s, VerifiedEmail(email))
      case None => (NoSuchAccount, s)
      case Some(i) => (CodeIssued, s[i := s[i].(resetCode := Some(code), resetExpires := Some(now + OtpLifetimeMs))])
  }

  datatype PasswordReset = MissingInput | InvalidCode | PasswordReplaced

  /**
   * Resetting with a code: the code must be non-empty and the new password at least eight
   * characters; then some record must hold that address, exactly that code and an expiry after
   * `now`. Success stores the new password's digest and clears the reset pair; nothing else
   * changes, and a refusal changes nothing at all.
   */
  function ResetWithCode<P>(s: seq<Account<P>>, email: string, code: string, newPassword: string, now: nat)
    : (r: (PasswordReset, seq<Account<P>>))
    ensures r.0 != PasswordReplaced ==> r.1 == s
    ensures r.0 == MissingInput <==> code == "" || |newPassword| < 8
    ensures r.0 == PasswordReplaced <==>
      code != "" && |newPassword| >= 8 && FindOne(s, ByResetCode(email, code, now)).Some?
    ensures r.0 == PasswordReplaced ==>
      var i := FindOne(s, ByResetCode(email, code, now)).value;
      && |r.1| == |s| && s[i].email == email && s[i].resetCode == Some(code)
      && r.1[i] == s[i].(password := Hash(newPassword), resetCode := None, resetExpires := None)
      && forall j :: 0 <= j < |s| && j != i ==> r.1[j] == s[j]
  {
    if code == "" || |newPassword| < 8 then (MissingInput, s)
    else match FindOne(s, ByResetCode(email, code, now))
      case None => (InvalidCode, s)
      case Some(i) => (PasswordReplaced, s[i := s[i].(password := Hash(newPassword), resetCode := None, resetExpires := None)])
  }

  /** A reset code works once: after a success, the same address and code are refused. */
  lemma ResetIsSingleUse<P>(s: seq<Account<P>>, email: string, code: string, newPassword: string, now: nat,
                            another: string, later: nat)
    requires UniqueEmails(s)
    requires ResetWithCode(s, email, code, newPassword, now).0 == PasswordReplaced
    ensures ResetWithCode(ResetWithCode(s, email, code, newPassword, now).1, email, code, another, later).0 != PasswordReplaced
  {
    var i := FindOne(s, ByResetCode(email, code, now)).value;
    var t := ResetWithCode(s, email, code, newPassword, now).1;
    forall j | 0 <= j < |t| ensures !Satisfies(t[j], ByResetCode(email, code, later)) {
      if j != i {
        assert t[j] == s[j];
        assert s[j].email != s[i].email;
      }
    }
  }

  /**
   * Reset round trip: right after a code is issued to a verified account, resetting with that
   * code and a long-enough password succeeds strictly before the ten minutes are up, and with
   * any other code it fails.
   */
  lemma IssueThenReset<P>(s: seq<Account<P>>, email: string, code: string, now: nat,
                          attempt: string, newPassword: string, later: nat)
    requires UniqueEmails(s)
    requires IssueResetCode(s, email, code, now).0 == CodeIssued
    requires attempt != "" && |newPassword| >= 8
    ensures var t := IssueResetCode(s, email, code, now).1;
      ResetWithCode(t, email, attempt, newPassword, later).0 ==
        if attempt == code && later < now + OtpLifetimeMs then PasswordReplaced else InvalidCode
  {
    var i := FindOne(s, VerifiedEmail(email)).value;
    var t := IssueResetCode(s, email, code, now).1;
    var q := ByResetCode(email, attempt, later);
    if attempt == code && later < now + OtpLifetimeMs {
      assert Satisfies(t[i], q);
    } else {
      forall j | 0 <= j < |t| ensures !Satisfies(t[j], q) {
        if j != i {
          assert t[j] == s[j];
          assert s[j].email != s[i].email;
        }
      }
    }
  }

  /** Issuing and using reset codes keeps e-mails unique, ids positional and verification as it was. */
  lemma ResetFlowsInvariants<P>(s: seq<Account<P>>, role: Role, email: string, code: string, newPassword: string, now: nat)
    requires UniqueEmails(s) && IdsArePositions(s, role)
    ensures var t := IssueResetCode(s, email, code, now).1;
      UniqueEmails(t) && IdsArePositions(t, role) && forall j :: 0 <= j < |s| ==> t[j].isVerified == s[j].isVerified
    ensures var t := ResetWithCode(s, email, code, newPassword, now).1;
      UniqueEmails(t) && IdsArePositions(t, role) && forall j :: 0 <= j < |s| ==> t[j].isVerified == s[j].isVerified
  {
    var t1 := IssueResetCode(s, email, code, now).1;
    var t2 := ResetWithCode(s, email, code, newPassword, now).1;
    assert forall j :: 0 <= j < |s| ==> t1[j].email == s[j].email && t1[j].id == s[j].id;
    assert forall j :: 0 <= j < |s| ==> t2[j].email == s[j].email && t2[j].id == s[j].id;
  }

  /** Verification keeps e-mails unique and ids positional, and never un-verifies anyone. */
  lemma VerifyCodeInvariants<P>(s: seq<Account<P>>, role: Role, email: string, code: Option<string>, now: nat)
    requires UniqueEmails(s) && IdsArePositions(s, role)
    ensures var t := VerifyCode(s, email, code, now).1;
      UniqueEmails(t) && IdsArePositions(t, role) && forall j :: 0 <= j < |s| && s[j].isVerified ==> t[j].isVerified
  {
    var t := VerifyCode(s, email, code, now).1;
    assert forall j :: 0 <= j < |s| ==> t[j].email == s[j].email && t[j].id == s[j].id;
  }
}
