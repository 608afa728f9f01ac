/**
 * The admin handlers (backend/controllers/adminController.js): login against the configured
 * credentials, adding a doctor, the dashboard, the consultation list, and editing a doctor's
 * profile.
 */
module AdminController {
  import opened Wrappers
  import opened Text
  import opened Crypto
  import opened Http
  import opened Accounts
  import opened Chats
  import opened ChatQueries
  import DoctorController

  /** `ADMIN_EMAIL` and `ADMIN_PASSWORD` from the environment; either may be unset. */
  datatype AdminConfig = AdminConfig(email: Option<string>, password: Option<string>)

  /**
   * `loginAdmin`: strict equality of the body's fields with the configured ones, where an
   * absent field equals only an unset variable (`undefined === undefined`).
   */
  function LoginAdmin(config: AdminConfig, email: Option<string>, password: Option<string>): (r: Response<Token>)
    ensures r.success <==> email == config.email && password == config.password
    ensures r.success ==> r.data == Some(AdminToken) && r.data.value.lifetimeSeconds == Some(24 * 60 * 60)
    ensures !r.success ==> r == Fail(401, "Invalid admin credentials")
  {
    if email == config.email && password == config.password then Ok("", Some(AdminToken))
    else Fail(401, "Invalid admin credentials")
  }

  /** With the variables unset, a login body without fields is admitted. */
  lemma UnconfiguredAdminAdmitsEmptyBody()
    ensures LoginAdmin(AdminConfig(None, None), None, None).success
  {
  }

  /** `addDoctor`: the three fields are required and the password must have eight characters. */
  function AddDoctor(doctors: seq<Doctor>, name: string, email: string, password: string): (o: Outcome<(), seq<Doctor>>)
    ensures o.response.success <==>
      name != "" && email != "" && password != "" && |password| >= 8 && FindOne(doctors, ByEmail(email)).None?
    ensures !o.response.success ==> o.response.status == 400 && o.after == doctors
    ensures FindOne(doctors, ByEmail(email)).Some? && name != "" && email != "" && |password| >= 8 ==>
      o.response == Fail(400, "A doctor with this email already exists.")
    ensures o.response.success ==>
      o.after == doctors + [NewAccount(IdAt(DoctorRole, |doctors|), name, email, Hash(password), NewDoctorProfile)]
  {
    if name == "" || email == "" || password == "" then
      Outcome(Fail(400, "Name, email, and password are required."), doctors)
    else if |password| < 8 then
      Outcome(Fail(400, "Password must be at least 8 characters."), doctors)
    else if FindOne(doctors, ByEmail(email)).Some? then
      Outcome(Fail(400, "A doctor with this email already exists."), doctors)
    else
      var d := NewAccount(IdAt(DoctorRole, |doctors|), name, email, Hash(password), NewDoctorProfile);
      Outcome(Ok("Doctor added successfully. The doctor can now log in and complete their profile.", None), doctors + [d])
  }

  /** Adding a doctor keeps e-mails unique and ids positional. */
  lemma AddDoctorInvariants(doctors: seq<Doctor>, name: string, email: string, password: string)
    requires UniqueEmails(doctors) && IdsArePositions(doctors, DoctorRole)
    ensures var after := AddDoctor(doctors, name, email, password).after;
      UniqueEmails(after) && IdsArePositions(after, DoctorRole)
  {
    if AddDoctor(doctors, name, email, password).response.success {
      AppendKeepsInvariants(doctors, NewAccount(IdAt(DoctorRole, |doctors|), name, email, Hash(password), NewDoctorProfile), DoctorRole);
    }
  }

  /**
   * A doctor the admin adds is stored unverified, so logging in with the very credentials the
   * admin set is refused, despite the success message saying the doctor can log in.
   */
  lemma AddedDoctorCannotLogIn(doctors: seq<Doctor>, name: string, email: string, password: string)
    requires AddDoctor(doctors, name, email, password).response.success
    ensures DoctorController.LoginDoctor(AddDoctor(doctors, name, email, password).after, email, Some(password))
      == Refuse("Please verify your email before logging in.")
  {
    var d := NewAccount(IdAt(DoctorRole, |doctors|), name, email, Hash(password), NewDoctorProfile);
    FindOneAfterAppend(doctors, d, ByEmail(email));
  }

  /** The admin dashboard's figures. */
  datatype AdminDash = AdminDash(doctors: nat, patients: nat, consultations: nat, latestConsultations: seq<Chat>)

  /** `adminDashboard`: the three counts and the five newest consultations, paid or not. */
  function AdminDashboard(doctors: seq<Doctor>, patients: seq<Patient>, chats: seq<Chat>): (r: Response<AdminDash>)
    ensures r.success && r.data.Some?
    ensures var dash := r.data.value;
      && dash.doctors == |doctors| && dash.patients == |patients| && dash.consultations == |chats|
      && dash.latestConsultations == Latest(chats, ByCreatedAt)
      && |dash.latestConsultations| == (if |chats| < LatestCount then |chats| else LatestCount)
      && SortedDesc(dash.latestConsultations, ByCreatedAt)
      && multiset(dash.latestConsultations) <= multiset(chats)
  {
    Ok("", Some(AdminDash(|doctors|, |patients|, |chats|, Latest(chats, ByCreatedAt))))
  }

  /** `getChatSessions`: every consultation, with no payment filter, newest first. */
  function GetChatSessions(chats: seq<Chat>): (r: Response<seq<Chat>>)
    ensures r.success && r.data.Some?
    ensures multiset(r.data.value) == multiset(chats)
    ensures SortedDesc(r.data.value, ByCreatedAt)
  {
    Ok("", Some(SortDesc(chats, ByCreatedAt)))
  }

  /** The fields of the admin's profile form; an absent field (`undefined`) is dropped from the update. */
  datatype AdminPatch = AdminPatch(
    name: Option<string>,
    speciality: Option<string>,
    degree: Option<string>,
    experience: Option<string>,
    fees: Option<int>,
    about: Option<string>,
    available: Option<bool>,
    image: Option<string>)

  /** The image the update stores: an uploaded file's URL, else whatever the body's `image` holds. */
  function ImageFor(patch: AdminPatch, upload: Option<string>): Option<string> {
    if upload.Some? then upload else patch.image
  }

  /** The admin's update of one doctor: given fields replaced, `profileStatus` and the credentials untouched. */
  function ApplyAdminPatch(d: Doctor, patch: AdminPatch, upload: Option<string>): (e: Doctor)
    ensures e.profile.profileStatus == d.profile.profileStatus
    ensures e.id == d.id && e.email == d.email && e.password == d.password && e.isVerified == d.isVerified
    ensures e.otp == d.otp && e.otpExpires == d.otpExpires && e.resetCode == d.resetCode && e.resetExpires == d.resetExpires
    ensures e.name == patch.name.GetOr(d.name)
    ensures e.profile.image == ImageFor(patch, upload).Or(d.profile.image)
    ensures e.profile.speciality == patch.speciality.Or(d.profile.speciality)
    ensures e.profile.degree == patch.degree.Or(d.profile.degree)
    ensures e.profile.experience == patch.experience.Or(d.profile.experience)
    ensures e.profile.about == patch.about.Or(d.profile.about)
    ensures e.profile.fees == patch.fees.Or(d.profile.fees)
    ensures e.profile.available == patch.available.GetOr(d.profile.available)
  {
    var p := d.profile;
    var profile := DoctorProfile(
      ImageFor(patch, upload).Or(p.image),
      patch.speciality.Or(p.speciality),
      patch.degree.Or(p.degree),
      patch.experience.Or(p.experience),
      patch.about.Or(p.about),
      patch.available.GetOr(p.available),
      patch.fees.Or(p.fees),
      p.profileStatus);
    Account(d.id, patch.name.GetOr(d.name), d.email, d.password, d.isVerified, d.otp, d.otpExpires,
            d.resetCode, d.resetExpires, profile)
  }

  /** `updateDoctorProfileByAdmin`: 404 for an unknown id, otherwise the updated profile without its password. */
  function UpdateDoctorProfileByAdmin(doctors: seq<Doctor>, id: nat, patch: AdminPatch, upload: Option<string>)
    : (o: Outcome<AccountView<DoctorProfile>, seq<Doctor>>)
    ensures o.response.success <==> FindOne(doctors, ById(id)).Some?
    ensures !o.response.success ==> o.response == Fail(404, "Doctor not found.") && o.after == doctors
    ensures o.response.success ==>
      var i := FindOne(doctors, ById(id)).value;
      && |o.after| == |doctors|
      && o.after[i] == ApplyAdminPatch(doctors[i], patch, upload)
      && o.response.data == Some(View(o.after[i]))
      && forall j :: 0 <= j < |doctors| && j != i ==> o.after[j] == doctors[j]
  {
    match FindOne(doctors, ById(id))
    case None => Outcome(Fail(404, "Doctor not found."), doctors)
    case Some(i) =>
      var d := ApplyAdminPatch(doctors[i], patch, upload);
      Outcome(Ok("Doctor profile updated successfully.", Some(View(d))), doctors[i := d])
  }

  /** An admin edit never completes a profile: a doctor whose profile is incomplete stays incomplete. */
  lemma AdminEditKeepsProfileStatus(doctors: seq<Doctor>, id: nat, patch: AdminPatch, upload: Option<string>)
    ensures var after := UpdateDoctorProfileByAdmin(doctors, id, patch, upload).after;
      |after| == |doctors| && forall j :: 0 <= j < |doctors| ==> after[j].profile.profileStatus == doctors[j].profile.profileStatus
  {
  }
}
