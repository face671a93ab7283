/** Saving a jobseeker profile: the request body is normalised into the
    stored record (falsy texts become null, lists are kept only when sent,
    salaries go through `parseInt`), and the completeness flag that admits a
    profile to matching is recomputed from the body on every save. */
module JobseekerProfile {
  import opened Wrappers
  import opened Http
  import Truthy
  import JsInt
  import ExperienceForm

  type Item = ExperienceForm.ExperienceItem

  /** A salary in the request body: a JSON number, or the text of the
      form's input field. */
  datatype Amount = Number(n: int) | Digits(text: string)

  /** JavaScript truthiness of a salary: 0 and "" are falsy, while "0" is a
      non-empty string and so truthy. */
  predicate Given(a: Option<Amount>) {
    match a
    case None => false
    case Some(Number(n)) => n != 0
    case Some(Digits(t)) => t != ""
  }

  /** A stored salary column: null, an integer, or the NaN of text without
      leading digits. */
  datatype StoredNumber = Null | Num(value: int) | NotANumber

  /** `x ? parseInt(x) : null`; `parseInt` reads its argument as text. */
  function StoredSalary(a: Option<Amount>): (r: StoredNumber)
    ensures !Given(a) <==> r == Null
  {
    if !Given(a) then Null
    else
      var text := match a.value case Number(n) => JsInt.Render(n) case Digits(t) => t;
      match JsInt.ParseInt(text)
      case None => NotANumber
      case Some(v) => Num(v)
  }

  /** A number in the body is stored as itself; text is stored as the
      number its leading digits spell. */
  lemma StoredSalaryOfNumber(n: int)
    requires n != 0
    ensures StoredSalary(Some(Number(n))) == Num(n)
  {
    JsInt.ParseRender(n, "");
    assert JsInt.Render(n) + "" == JsInt.Render(n);
  }

  datatype ProfileInput = ProfileInput(
    bio: Option<string>, location: Option<string>, phone: Option<string>,
    skills: Option<seq<string>>, experience: Option<seq<Item>>, education: Option<seq<Item>>,
    resumeUrl: Option<string>, portfolioUrl: Option<string>,
    jobType: Option<string>, remote: Option<string>,
    minSalary: Option<Amount>, maxSalary: Option<Amount>,
    availability: Option<string>, isActive: Option<bool>)

  /** `checkProfileComplete`: bio and location, at least three skills, at
      least one experience entry, and job type, work style and minimum
      salary all given. An array is truthy even when empty. */
  predicate IsComplete(d: ProfileInput) {
    && Truthy.Text(d.bio) && Truthy.Text(d.location)
    && d.skills.Some? && |d.skills.value| >= 3
    && d.experience.Some? && |d.experience.value| >= 1
    && Truthy.Text(d.jobType) && Truthy.Text(d.remote) && Given(d.minSalary)
  }

  /** Phone, education, links, maximum salary, availability and visibility
      play no part in completeness. */
  lemma CompletenessIgnoresExtras(d: ProfileInput, phone: Option<string>, education: Option<seq<Item>>,
                                  resumeUrl: Option<string>, portfolioUrl: Option<string>,
                                  maxSalary: Option<Amount>, availability: Option<string>, isActive: Option<bool>)
    ensures IsComplete(d.(phone := phone, education := education, resumeUrl := resumeUrl,
                          portfolioUrl := portfolioUrl, maxSalary := maxSalary,
                          availability := availability, isActive := isActive))
         == IsComplete(d)
  {
  }

  /** A minimum salary typed as "0" counts as given, a number 0 does not;
      both would be stored as 0 if given. */
  lemma ZeroSalaryTextCounts(d: ProfileInput)
    requires Truthy.Text(d.bio) && Truthy.Text(d.location)
    requires d.skills.Some? && |d.skills.value| >= 3 && d.experience.Some? && |d.experience.value| >= 1
    requires Truthy.Text(d.jobType) && Truthy.Text(d.remote)
    ensures IsComplete(d.(minSalary := Some(Digits("0"))))
    ensures !IsComplete(d.(minSalary := Some(Number(0))))
    ensures StoredSalary(Some(Digits("0"))) == Num(0)
  {
    JsInt.ParseRender(0, "");
    assert JsInt.Render(0) + "" == "0";
  }

  datatype ProfileRecord = ProfileRecord(
    userId: string,
    bio: Option<string>, location: Option<string>, phone: Option<string>,
    skills: Option<seq<string>>, experience: Option<seq<Item>>, education: Option<seq<Item>>,
    resumeUrl: Option<string>, portfolioUrl: Option<string>,
    jobType: Option<string>, remote: Option<string>,
    minSalary: StoredNumber, maxSalary: StoredNumber,
    currency: string, availability: Option<string>,
    isActive: bool, profileComplete: bool)

  /** A stored text is the sent one when that is truthy, and null otherwise. */
  predicate NullIfFalsy(sent: Option<string>, stored: Option<string>) {
    (stored.Some? <==> Truthy.Text(sent)) && (stored.Some? ==> stored == sent)
  }

  /** The record the route writes for `userId`. */
  function Normalise(userId: string, d: ProfileInput): (r: ProfileRecord)
    ensures r.userId == userId
    ensures NullIfFalsy(d.bio, r.bio) && NullIfFalsy(d.location, r.location) && NullIfFalsy(d.phone, r.phone)
    ensures NullIfFalsy(d.resumeUrl, r.resumeUrl) && NullIfFalsy(d.portfolioUrl, r.portfolioUrl)
    ensures NullIfFalsy(d.jobType, r.jobType) && NullIfFalsy(d.remote, r.remote)
    ensures NullIfFalsy(d.availability, r.availability)
    ensures r.skills == d.skills && r.experience == d.experience && r.education == d.education
    ensures r.minSalary == StoredSalary(d.minSalary) && r.maxSalary == StoredSalary(d.maxSalary)
    ensures r.currency == "USD"
    ensures d.isActive.None? ==> r.isActive
    ensures d.isActive.Some? ==> r.isActive == d.isActive.value
    ensures r.profileComplete <==> IsComplete(d)
  {
    ProfileRecord(
      userId,
      Truthy.TextOrNull(d.bio), Truthy.TextOrNull(d.location), Truthy.TextOrNull(d.phone),
      d.skills, d.experience, d.education,
      Truthy.TextOrNull(d.resumeUrl), Truthy.TextOrNull(d.portfolioUrl),
      Truthy.TextOrNull(d.jobType), Truthy.TextOrNull(d.remote),
      StoredSalary(d.minSalary), StoredSalary(d.maxSalary),
      "USD", Truthy.TextOrNull(d.availability),
      d.isActive.GetOr(true), IsComplete(d))
  }

  /** POST: only a signed-in jobseeker may save, and the record is keyed by
      the session's user. */
  function SaveProfile(session: Option<Session>, d: ProfileInput): (r: Reply<ProfileRecord>)
    ensures !HasRole(session, "JOBSEEKER") ==> r == Error(401, "Unauthorized")
    ensures HasRole(session, "JOBSEEKER") ==> r.Ok? && r.body.userId == session.value.userId
    ensures r.Ok? ==> r.body.profileComplete == IsComplete(d)
  {
    if !HasRole(session, "JOBSEEKER") then Error(401, "Unauthorized")
    else Ok(Normalise(session.value.userId, d))
  }

  function Resent(s: StoredNumber): Option<Amount> {
    match s
    case Null => None
    case Num(n) => Some(Number(n))
    case NotANumber => None
  }

  /** The saved record sent back as a request body, numbers as numbers. */
  function Resubmitted(r: ProfileRecord): ProfileInput {
    ProfileInput(r.bio, r.location, r.phone, r.skills, r.experience, r.education,
                 r.resumeUrl, r.portfolioUrl, r.jobType, r.remote,
                 Resent(r.minSalary), Resent(r.maxSalary), r.availability, Some(r.isActive))
  }

  /** Text salaries that read as a non-zero number or are left empty. */
  predicate SalariesSettle(d: ProfileInput) {
    StoredSalary(d.minSalary) != Num(0) && StoredSalary(d.minSalary) != NotANumber
    && StoredSalary(d.maxSalary) != Num(0) && StoredSalary(d.maxSalary) != NotANumber
  }

  lemma ResentSalary(a: Option<Amount>)
    requires StoredSalary(a) != Num(0) && StoredSalary(a) != NotANumber
    ensures StoredSalary(Resent(StoredSalary(a))) == StoredSalary(a)
  {
    if StoredSalary(a).Num? {
      StoredSalaryOfNumber(StoredSalary(a).value);
    }
  }

  /** Saving the saved profile again writes the same record. */
  lemma SaveIdempotent(userId: string, d: ProfileInput)
    requires SalariesSettle(d)
    ensures Normalise(userId, Resubmitted(Normalise(userId, d))) == Normalise(userId, d)
  {
    ResentSalary(d.minSalary);
    ResentSalary(d.maxSalary);
  }
}
