/**
 * The three route guards (backend/middleware/authUser.js, authDoctor.js, authAdmin.js).
 *
 * Each reads the `Authorization` header, requires it to start with `Bearer ` (case-sensitive),
 * takes the second space-separated field as the token and verifies it. Token verification
 * (`jwt.verify` with the server secret) is the `decode` parameter: it returns the claims of a
 * genuine, unexpired token and `None` where `jwt.verify` throws. A missing header is the empty
 * string.
 */
module Auth {
  import opened Wrappers
  import opened Text
  import opened Crypto
  import opened Accounts

  /** What a guard decides: call `next()` with the account id it attached, or answer 401 with a message. */
  datatype Decision = Next(principal: Option<nat>) | Unauthorized(message: string)

  const Scheme: string := "Bearer "

  /** `authorization.split(' ')[1]` for a header that starts with `Bearer `, whose split has at least two fields. */
  function BearerToken(header: string): (t: Option<string>)
    ensures t.Some? <==> StartsWith(header, Scheme)
  {
    if !StartsWith(header, Scheme) then None
    else
      assert header == "Bearer" + [' '] + header[|Scheme|..];
      SplitAfterField("Bearer", ' ', header[|Scheme|..]);
      Some(Split(header, ' ')[1])
  }

  /** A token without spaces comes back out of the header it is sent in. */
  lemma {:induction false} BearerTokenRoundTrip(token: string)
    requires ' ' !in token
    ensures BearerToken(Scheme + token) == Some(token)
  {
    var h := Scheme + token;
    assert StartsWith(h, Scheme);
    assert h == "Bearer" + [' '] + token;
    SplitAfterField("Bearer", ' ', token);
    SplitNoSep(token, ' ');
  }

  /** Only the second field is taken: anything after a further space is ignored. */
  lemma {:induction false} BearerTokenIgnoresRest(token: string, rest: string)
    requires ' ' !in token
    ensures BearerToken(Scheme + token + " " + rest) == Some(token)
  {
    var h := Scheme + token + " " + rest;
    assert StartsWith(h, Scheme);
    assert h == "Bearer" + [' '] + (token + [' '] + rest);
    SplitAfterField("Bearer", ' ', token + [' '] + rest);
    SplitAfterField(token, ' ', rest);
  }

  /** The scheme is matched case-sensitively: `bearer <token>` is refused. */
  lemma LowercaseSchemeRefused(token: string)
    ensures BearerToken("bearer " + token) == None
  {
    assert ("bearer " + token)[0] == 'b';
  }

  /** The messages one account guard sends. */
  datatype GuardMessages = GuardMessages(noToken: string, notFound: string, failed: string)

  const UserMessages: GuardMessages :=
    GuardMessages("Not Authorized, no token.", "Not Authorized, user not found.", "Not Authorized, token failed.")

  const DoctorMessages: GuardMessages :=
    GuardMessages("Doctor not authorized, no token.", "Doctor not authorized, doctor not found.",
                  "Doctor not authorized, token failed.")

  /**
   * The account guard shared by `authUser` and `authDoctor`: header, then verification, then
   * `findById(decoded.id)`. A token without an `id` claim looks up `undefined`, which finds
   * nothing.
   */
  function AuthAccount<P>(header: string, decode: string -> Option<Claims>, accounts: seq<Account<P>>,
                          messages: GuardMessages): (d: Decision)
    ensures d.Next? <==>
      && BearerToken(header).Some?
      && decode(BearerToken(header).value).Some?
      && var id := decode(BearerToken(header).value).value.id;
      && id.Some? && FindOne(accounts, ById(id.value)).Some?
    ensures d.Next? ==>
      d.principal == decode(BearerToken(header).value).value.id
      && accounts[FindOne(accounts, ById(d.principal.value)).value].id == d.principal.value
    ensures d.Unauthorized? ==> d.message in {messages.noToken, messages.notFound, messages.failed}
    ensures BearerToken(header).None? ==> d == Unauthorized(messages.noToken)
  {
    match BearerToken(header)
    case None => Unauthorized(messages.noToken)
    case Some(token) =>
      match decode(token)
      case None => Unauthorized(messages.failed)
      case Some(claims) =>
        match claims.id
        case None => Unauthorized(messages.notFound)
        case Some(id) =>
          if FindOne(accounts, ById(id)).Some? then Next(Some(id)) else Unauthorized(messages.notFound)
  }

  /** `authUser`: a request gets through only as a patient that exists, and is refused with one of the patient messages. */
  function AuthUser(header: string, decode: string -> Option<Claims>, users: seq<Patient>): (d: Decision)
    ensures d.Next? ==> d.principal.Some? && exists i :: 0 <= i < |users| && users[i].id == d.principal.value
    ensures d.Unauthorized? ==>
      d.message in {"Not Authorized, no token.", "Not Authorized, user not found.", "Not Authorized, token failed."}
  {
    AuthAccount(header, decode, users, UserMessages)
  }

  /** `authDoctor`: a request gets through only as a doctor that exists, and is refused with one of the doctor messages. */
  function AuthDoctor(header: string, decode: string -> Option<Claims>, doctors: seq<Doctor>): (d: Decision)
    ensures d.Next? ==> d.principal.Some? && exists i :: 0 <= i < |doctors| && doctors[i].id == d.principal.value
    ensures d.Unauthorized? ==>
      d.message in {"Doctor not authorized, no token.", "Doctor not authorized, doctor not found.",
                    "Doctor not authorized, token failed."}
  {
    AuthAccount(header, decode, doctors, DoctorMessages)
  }

  /**
   * Login then access: the token a login issues for an existing account, sent as `Bearer <token>`
   * and verified by `decode`, lets the request through with that account's id.
   */
  lemma IssuedTokenAdmits<P>(encoded: string, decode: string -> Option<Claims>, accounts: seq<Account<P>>,
                             role: Role, i: nat, messages: GuardMessages)
    requires IdsArePositions(accounts, role) && i < |accounts|
    requires ' ' !in encoded && decode(encoded) == Some(AccountToken(accounts[i].id).claims)
    ensures AuthAccount(Scheme + encoded, decode, accounts, messages) == Next(Some(accounts[i].id))
  {
    BearerTokenRoundTrip(encoded);
    FindById(accounts, role, accounts[i].id);
  }

  /** A token issued to an account of the other collection finds no record, so the guard answers "not found". */
  lemma OtherRoleTokenRefused<P>(encoded: string, decode: string -> Option<Claims>, accounts: seq<Account<P>>,
                                 role: Role, other: Role, k: nat, messages: GuardMessages)
    requires IdsArePositions(accounts, role) && role != other
    requires ' ' !in encoded && decode(encoded) == Some(AccountToken(IdAt(other, k)).claims)
    ensures AuthAccount(Scheme + encoded, decode, accounts, messages) == Unauthorized(messages.notFound)
  {
    BearerTokenRoundTrip(encoded);
    OtherRoleIdFindsNothing(accounts, role, other, k);
  }

  /** A patient's login token does not get through `authDoctor`. */
  lemma PatientTokenRefusedByDoctorGuard(encoded: string, decode: string -> Option<Claims>,
                                         users: seq<Patient>, doctors: seq<Doctor>, i: nat)
    requires IdsArePositions(users, PatientRole) && IdsArePositions(doctors, DoctorRole) && i < |users|
    requires ' ' !in encoded && decode(encoded) == Some(AccountToken(users[i].id).claims)
    ensures AuthDoctor(Scheme + encoded, decode, doctors) == Unauthorized("Doctor not authorized, doctor not found.")
  {
    OtherRoleTokenRefused(encoded, decode, doctors, DoctorRole, PatientRole, i, DoctorMessages);
  }

  /** A doctor's login token does not get through `authUser`. */
  lemma DoctorTokenRefusedByUserGuard(encoded: string, decode: string -> Option<Claims>,
                                      users: seq<Patient>, doctors: seq<Doctor>, i: nat)
    requires IdsArePositions(users, PatientRole) && IdsArePositions(doctors, DoctorRole) && i < |doctors|
    requires ' ' !in encoded && decode(encoded) == Some(AccountToken(doctors[i].id).claims)
    ensures AuthUser(Scheme + encoded, decode, users) == Unauthorized("Not Authorized, user not found.")
  {
    OtherRoleTokenRefused(encoded, decode, users, PatientRole, DoctorRole, i, UserMessages);
  }

  /** `authAdmin`: passes exactly when the verified token's `isAdmin` is the boolean `true`; no account is read. */
  function AuthAdmin(header: string, decode: string -> Option<Claims>): (d: Decision)
    ensures d.Next? <==>
      && BearerToken(header).Some?
      && decode(BearerToken(header).value).Some?
      && decode(BearerToken(header).value).value.isAdmin == Some(JBool(true))
    ensures d.Next? ==> d.principal.None?
    ensures BearerToken(header).None? ==> d == Unauthorized("Admin not authorized, no token.")
  {
    match BearerToken(header)
    case None => Unauthorized("Admin not authorized, no token.")
    case Some(token) =>
      match decode(token)
      case None => Unauthorized("Admin not authorized, token failed.")
      case Some(claims) =>
        if claims.isAdmin == Some(JBool(true)) then Next(None)
        else Unauthorized("Admin not authorized, invalid token.")
  }

  /** The admin token passes the admin guard; a patient or doctor token, which has no `isAdmin`, does not. */
  lemma AdminGuardSeparatesTokens(encoded: string, decode: string -> Option<Claims>, id: nat)
    requires ' ' !in encoded
    ensures decode(encoded) == Some(AdminToken.claims) ==> AuthAdmin(Scheme + encoded, decode).Next?
    ensures decode(encoded) == Some(AccountToken(id).claims) ==>
      AuthAdmin(Scheme + encoded, decode) == Unauthorized("Admin not authorized, invalid token.")
  {
    BearerTokenRoundTrip(encoded);
  }

  /** A truthy `isAdmin` that is not the boolean `true` (the string `"true"`, say) is refused. */
  lemma AdminClaimMustBeBooleanTrue(encoded: string, decode: string -> Option<Claims>)
    requires ' ' !in encoded
    requires decode(encoded) == Some(Claims(None, Some(JString("true"))))
    ensures AuthAdmin(Scheme + encoded, decode) == Unauthorized("Admin not authorized, invalid token.")
  {
    BearerTokenRoundTrip(encoded);
  }
}
