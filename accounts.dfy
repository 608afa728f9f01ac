/**
 * Account records (backend/models/doctorModel.js; patients keep the same credential fields) and
 * the `findOne`/`findById` lookups the controllers run on a collection of them.
 *
 * A collection is a sequence in insertion order, and `findOne` returns the first record the
 * filter matches, as MongoDB does in natural order. A record's id stands for its ObjectId:
 * ObjectIds never repeat, not even across collections, so the id of the record at position
 * `k` is `2k` among patients and `2k + 1` among doctors, and an insert takes the next one.
 */
module Accounts {
  import opened Wrappers
  import opened Crypto

  /** The `profileStatus` strings the code writes: `'incomplete'` (default) and `'complete'`. */
  datatype ProfileStatus = Incomplete | Complete

  /** The doctor-only fields. */
  datatype DoctorProfile = DoctorProfile(
    image: Option<string>,
    speciality: Option<string>,
    degree: Option<string>,
    experience: Option<string>,
    about: Option<string>,
    available: bool,
    fees: Option<int>,
    profileStatus: ProfileStatus)

  /** Schema defaults of a new doctor: `available: true`, `profileStatus: 'incomplete'`. */
  const NewDoctorProfile: DoctorProfile :=
    DoctorProfile(None, None, None, None, None, true, None, Incomplete)

  /**
   * One account. `email` and `password` (a digest) are required; `isVerified` defaults to false;
   * the sign-up pair (`otp`, a digest, and `otpExpires`) and the reset pair (`resetCode`, kept in
   * plain text, and `resetExpires`) are separate optional fields. Times are epoch milliseconds.
   */
  datatype Account<P> = Account(
    id: nat,
    name: string,
    email: string,
    password: Digest,
    isVerified: bool,
    otp: Option<Digest>,
    otpExpires: Option<nat>,
    resetCode: Option<string>,
    resetExpires: Option<nat>,
    profile: P)

  type Doctor = Account<DoctorProfile>

  /** The patient schema is not part of this model; a patient carries the credential fields only. */
  type Patient = Account<()>

  /** A record as first inserted: everything not given takes its schema default. */
  function NewAccount<P>(id: nat, name: string, email: string, password: Digest, profile: P): Account<P> {
    Account(id, name, email, password, false, None, None, None, None, profile)
  }

  /** A doctor inserted with only name, e-mail and password is unverified, available and incomplete. */
  lemma NewDoctorDefaults(id: nat, name: string, email: string, password: Digest)
    ensures var d := NewAccount(id, name, email, password, NewDoctorProfile);
      && !d.isVerified && d.profile.available && d.profile.profileStatus == Incomplete
      && d.otp.None? && d.otpExpires.None? && d.resetCode.None? && d.resetExpires.None?
  {
  }

  /** A record as the default projection returns it: every field but the password (`select: false`). */
  datatype AccountView<P> = AccountView(
    id: nat,
    name: string,
    email: string,
    isVerified: bool,
    otp: Option<Digest>,
    otpExpires: Option<nat>,
    resetCode: Option<string>,
    resetExpires: Option<nat>,
    profile: P)

  function View<P>(a: Account<P>): AccountView<P> {
    AccountView(a.id, a.name, a.email, a.isVerified, a.otp, a.otpExpires, a.resetCode, a.resetExpires, a.profile)
  }

  /** The filter documents the controllers pass to `findOne`/`findById`. */
  datatype Query =
    | ById(id: nat)                                      // findById(id)
    | ByEmail(email: string)                             // { email }
    | VerifiedEmail(email: string)                       // { email, isVerified: true }
    | UnverifiedEmail(email: string)                     // { email, isVerified: false }
    | ByResetCode(email: string, code: string, now: nat) // { email, passwordResetOTP: code, passwordResetExpires: { $gt: now } }

  predicate Satisfies<P>(a: Account<P>, q: Query) {
    match q
    case ById(id) => a.id == id
    case ByEmail(e) => a.email == e
    case VerifiedEmail(e) => a.email == e && a.isVerified
    case UnverifiedEmail(e) => a.email == e && !a.isVerified
    case ByResetCode(e, c, now) =>
      a.email == e && a.resetCode == Some(c) && a.resetExpires.Some? && a.resetExpires.value > now
  }

  /** The first record at or after position `from` that the filter matches. */
  function FindFrom<P>(s: seq<Account<P>>, q: Query, from: nat): (r: Option<nat>)
    requires from <= |s|
    ensures r.Some? ==> from <= r.value < |s| && Satisfies(s[r.value], q)
    ensures r.Some? ==> forall j :: from <= j < r.value ==> !Satisfies(s[j], q)
    ensures r.None? ==> forall j :: from <= j < |s| ==> !Satisfies(s[j], q)
    decreases |s| - from
  {
    if from == |s| then None
    else if Satisfies(s[from], q) then Some(from)
    else FindFrom(s, q, from + 1)
  }

  /** `Model.findOne(filter)`: the position of the first matching record, if any. */
  function FindOne<P>(s: seq<Account<P>>, q: Query): (r: Option<nat>)
    ensures r.Some? ==> r.value < |s| && Satisfies(s[r.value], q)
    ensures r.Some? ==> forall j :: 0 <= j < r.value ==> !Satisfies(s[j], q)
    ensures r.None? ==> forall j :: 0 <= j < |s| ==> !Satisfies(s[j], q)
  {
    FindFrom(s, q, 0)
  }

  /** The first match depends only on which positions match. */
  lemma FindOneSameMatches<P>(s: seq<Account<P>>, t: seq<Account<P>>, q: Query)
    requires |s| == |t|
    requires forall j :: 0 <= j < |s| ==> (Satisfies(s[j], q) <==> Satisfies(t[j], q))
    ensures FindOne(s, q) == FindOne(t, q)
  {
    var a, b := FindOne(s, q), FindOne(t, q);
    if a.Some? {
      assert Satisfies(t[a.value], q);
    }
    if b.Some? {
      assert Satisfies(s[b.value], q);
    }
  }

  /** Rewriting one record without changing whether it matches leaves the first match in place. */
  lemma FindOneAfterUpdate<P>(s: seq<Account<P>>, i: nat, a: Account<P>, q: Query)
    requires i < |s|
    requires Satisfies(a, q) <==> Satisfies(s[i], q)
    ensures FindOne(s[i := a], q) == FindOne(s, q)
  {
    FindOneSameMatches(s, s[i := a], q);
  }

  /** Appending a record changes the first match only when there was none and the new record matches. */
  lemma FindOneAfterAppend<P>(s: seq<Account<P>>, a: Account<P>, q: Query)
    ensures FindOne(s + [a], q) ==
      if FindOne(s, q).Some? then FindOne(s, q)
      else if Satisfies(a, q) then Some(|s|)
      else None
  {
    var t := s + [a];
    forall j | 0 <= j < |s| ensures t[j] == s[j] {
    }
    if FindOne(s, q).Some? {
      var k := FindOne(s, q).value;
      assert Satisfies(t[k], q);
    } else {
      forall j | 0 <= j < |s| ensures !Satisfies(t[j], q) {
        assert t[j] == s[j];
      }
      assert t[|s|] == a;
    }
  }

  /** The unique index on `email`: no two records share an address. */
  predicate UniqueEmails<P>(s: seq<Account<P>>) {
    forall i, j :: 0 <= i < j < |s| ==> s[i].email != s[j].email
  }

  /** The two account collections. */
  datatype Role = PatientRole | DoctorRole

  /** The id of the record at position `k` of a role's collection: even for patients, odd for doctors. */
  function IdAt(role: Role, k: nat): nat {
    if role == PatientRole then 2 * k else 2 * k + 1
  }

  /** `id` names a record of the role's collection of `n` records. */
  predicate IsIdOf(role: Role, n: nat, id: nat) {
    id % 2 == (if role == PatientRole then 0 else 1) && id / 2 < n
  }

  /** Every record's id is the one its position gives, so the next one (`IdAt(role, |s|)`) is fresh. */
  predicate IdsArePositions<P>(s: seq<Account<P>>, role: Role) {
    forall i :: 0 <= i < |s| ==> s[i].id == IdAt(role, i)
  }

  /** Inserting a record with the next id and an address nobody holds keeps both invariants. */
  lemma AppendKeepsInvariants<P>(s: seq<Account<P>>, a: Account<P>, role: Role)
    requires UniqueEmails(s) && IdsArePositions(s, role)
    requires a.id == IdAt(role, |s|) && FindOne(s, ByEmail(a.email)).None?
    ensures UniqueEmails(s + [a]) && IdsArePositions(s + [a], role)
  {
    var t := s + [a];
    forall j | 0 <= j < |s| ensures t[j] == s[j] && s[j].email != a.email {
      assert !Satisfies(s[j], ByEmail(a.email));
    }
  }

  /** With unique e-mails, a lookup by e-mail finds the one record holding that address. */
  lemma FindByUniqueEmail<P>(s: seq<Account<P>>, i: nat)
    requires UniqueEmails(s) && i < |s|
    ensures FindOne(s, ByEmail(s[i].email)) == Some(i)
  {
    var r := FindOne(s, ByEmail(s[i].email));
    assert Satisfies(s[i], ByEmail(s[i].email));
    assert r.Some? && r.value <= i;
    assert s[r.value].email == s[i].email;
  }

  /** With unique e-mails, a lookup for a verified address finds the verified record holding it. */
  lemma FindVerifiedByUniqueEmail<P>(s: seq<Account<P>>, i: nat)
    requires UniqueEmails(s) && i < |s| && s[i].isVerified
    ensures FindOne(s, VerifiedEmail(s[i].email)) == Some(i)
  {
    var r := FindOne(s, VerifiedEmail(s[i].email));
    assert Satisfies(s[i], VerifiedEmail(s[i].email));
    assert r.Some? && r.value <= i;
    assert s[r.value].email == s[i].email;
  }

  /**
   * With positional ids, `findById(id)` finds a record exactly when `id` is one of the
   * collection's own, at the position the id gives.
   */
  lemma FindById<P>(s: seq<Account<P>>, role: Role, id: nat)
    requires IdsArePositions(s, role)
    ensures FindOne(s, ById(id)) == if IsIdOf(role, |s|, id) then Some(id / 2) else None
  {
    if IsIdOf(role, |s|, id) {
      assert s[id / 2].id == id;
      assert Satisfies(s[id / 2], ById(id));
    } else {
      forall j | 0 <= j < |s| ensures !Satisfies(s[j], ById(id)) {
        assert s[j].id == IdAt(role, j);
      }
    }
  }

  /** The id of a record of the other collection finds nothing, whatever the sizes. */
  lemma {:induction false} OtherRoleIdFindsNothing<P>(s: seq<Account<P>>, role: Role, other: Role, k: nat)
    requires IdsArePositions(s, role) && role != other
    ensures FindOne(s, ById(IdAt(other, k))).None?
  {
    forall j | 0 <= j < |s| ensures !Satisfies(s[j], ById(IdAt(other, k))) {
      assert s[j].id == IdAt(role, j);
    }
  }
}
