/** The request schemas: the length, bound and enumeration constraints each
    form must meet. Each schema yields the list of issues it finds; an input
    is accepted exactly when that list is empty. The email and URL format
    checks belong to the validation library and are parameters here. */
module Validations {
  import opened Wrappers
  import Experience
  import Matching

  datatype Issue =
    | TooShort(field: string, min: nat)
    | TooLong(field: string, max: nat)
    | BelowMinimum(field: string, bound: int)
    | NotInEnum(field: string)
    | BadFormat(field: string)

  datatype Formats = Formats(isEmail: string -> bool, isUrl: string -> bool)

  function AtLeast(field: string, s: string, n: nat): (r: seq<Issue>)
    ensures r == [] <==> |s| >= n
    ensures r != [] ==> r == [TooShort(field, n)]
  {
    if |s| < n then [TooShort(field, n)] else []
  }

  /** An optional string with a maximum length; an absent one passes. */
  function AtMost(field: string, s: Option<string>, n: nat): (r: seq<Issue>)
    ensures r == [] <==> s.None? || |s.value| <= n
    ensures r != [] ==> r == [TooLong(field, n)]
  {
    if s.Some? && |s.value| > n then [TooLong(field, n)] else []
  }

  /** An optional number with a lower bound; an absent one passes. */
  function NotBelow(field: string, x: Option<real>, min: int): (r: seq<Issue>)
    ensures r == [] <==> x.None? || x.value >= min as real
    ensures r != [] ==> r == [BelowMinimum(field, min)]
  {
    if x.Some? && x.value < min as real then [BelowMinimum(field, min)] else []
  }

  function OneOf(field: string, s: string, options: seq<string>): (r: seq<Issue>)
    ensures r == [] <==> s in options
    ensures r != [] ==> r == [NotInEnum(field)]
  {
    if s !in options then [NotInEnum(field)] else []
  }

  function Email(f: Formats, field: string, s: string): (r: seq<Issue>)
    ensures r == [] <==> f.isEmail(s)
    ensures r != [] ==> r == [BadFormat(field)]
  {
    if !f.isEmail(s) then [BadFormat(field)] else []
  }

  /** `.url().optional().or(z.literal(''))`: absent, empty or a URL. */
  predicate UrlOrEmpty(f: Formats, s: Option<string>) {
    s.None? || s.value == "" || f.isUrl(s.value)
  }

  function OptionalUrl(f: Formats, field: string, s: Option<string>): (r: seq<Issue>)
    ensures r == [] <==> UrlOrEmpty(f, s)
    ensures r != [] ==> r == [BadFormat(field)]
  {
    if !UrlOrEmpty(f, s) then [BadFormat(field)] else []
  }

  datatype LoginInput = LoginInput(email: string, password: string)

  function LoginIssues(f: Formats, x: LoginInput): (r: seq<Issue>)
    ensures r == [] <==> f.isEmail(x.email) && |x.password| >= 6
    ensures TooShort("password", 6) in r <==> |x.password| < 6
  {
    Email(f, "email", x.email) + AtLeast("password", x.password, 6)
  }

  const Roles: seq<string> := ["JOBSEEKER", "HR", "ADMIN"]

  datatype RegisterInput = RegisterInput(email: string, password: string, name: string,
                                         role: string, companyName: Option<string>)

  /** The company name is never checked, whatever the role. */
  function RegisterIssues(f: Formats, x: RegisterInput): (r: seq<Issue>)
    ensures r == [] <==> f.isEmail(x.email) && |x.password| >= 6 && |x.name| >= 2 && x.role in Roles
    ensures TooShort("password", 6) in r <==> |x.password| < 6
    ensures TooShort("name", 2) in r <==> |x.name| < 2
    ensures NotInEnum("role") in r <==> x.role !in Roles
  {
    Email(f, "email", x.email) + AtLeast("password", x.password, 6)
    + AtLeast("name", x.name, 2) + OneOf("role", x.role, Roles)
  }

  /** Both sign-in and sign-up turn away a password under six characters. */
  lemma ShortPasswordRejected(f: Formats, email: string, password: string, name: string,
                              role: string, companyName: Option<string>)
    requires |password| < 6
    ensures LoginIssues(f, LoginInput(email, password)) != []
    ensures RegisterIssues(f, RegisterInput(email, password, name, role, companyName)) != []
  {
    assert TooShort("password", 6) in LoginIssues(f, LoginInput(email, password));
    assert TooShort("password", 6) in RegisterIssues(f, RegisterInput(email, password, name, role, companyName));
  }

  /** Anyone may sign up as ADMIN, and an HR account needs no company name. */
  lemma RegisterAcceptsAdminAndBareHr(f: Formats, email: string, password: string, name: string)
    requires f.isEmail(email) && |password| >= 6 && |name| >= 2
    ensures RegisterIssues(f, RegisterInput(email, password, name, "ADMIN", None)) == []
    ensures RegisterIssues(f, RegisterInput(email, password, name, "HR", None)) == []
  {
  }

  datatype JobseekerProfileInput = JobseekerProfileInput(
    bio: Option<string>, skills: Option<seq<string>>, experience: Option<string>,
    resumeUrl: Option<string>, portfolioUrl: Option<string>, location: Option<string>)

  function JobseekerProfileIssues(f: Formats, x: JobseekerProfileInput): (r: seq<Issue>)
    ensures r == [] <==> (x.bio.None? || |x.bio.value| <= 500) && UrlOrEmpty(f, x.resumeUrl) && UrlOrEmpty(f, x.portfolioUrl)
    ensures TooLong("bio", 500) in r <==> x.bio.Some? && |x.bio.value| > 500
  {
    AtMost("bio", x.bio, 500) + OptionalUrl(f, "resumeUrl", x.resumeUrl) + OptionalUrl(f, "portfolioUrl", x.portfolioUrl)
  }

  datatype CompanyProfileInput = CompanyProfileInput(
    name: string, description: Option<string>, industry: Option<string>, size: Option<string>,
    website: Option<string>, logo: Option<string>, location: Option<string>)

  function CompanyProfileIssues(f: Formats, x: CompanyProfileInput): (r: seq<Issue>)
    ensures r == [] <==>
      |x.name| >= 2 && (x.description.None? || |x.description.value| <= 1000)
      && UrlOrEmpty(f, x.website) && UrlOrEmpty(f, x.logo)
    ensures TooShort("name", 2) in r <==> |x.name| < 2
    ensures TooLong("description", 1000) in r <==> x.description.Some? && |x.description.value| > 1000
  {
    AtLeast("name", x.name, 2) + AtMost("description", x.description, 1000)
    + OptionalUrl(f, "website", x.website) + OptionalUrl(f, "logo", x.logo)
  }

  const JobTypes: seq<string> := ["FULL_TIME", "PART_TIME", "CONTRACT", "FREELANCE", "INTERNSHIP"]
  const Levels: seq<string> := ["ENTRY", "JUNIOR", "MID", "SENIOR", "LEAD", "EXECUTIVE"]

  datatype JobInput = JobInput(
    title: string, description: string, requirements: Option<string>, responsibilities: Option<string>,
    salaryMin: Option<real>, salaryMax: Option<real>, jobType: string, experienceLevel: string,
    location: Option<string>, isRemote: Option<bool>, deadline: Option<string>)

  /** The two salary bounds are checked separately: nothing ties the
      minimum to the maximum. */
  function JobIssues(x: JobInput): (r: seq<Issue>)
    ensures r == [] <==>
      |x.title| >= 3 && |x.description| >= 50
      && (x.salaryMin.None? || x.salaryMin.value >= 0.0)
      && (x.salaryMax.None? || x.salaryMax.value >= 0.0)
      && x.jobType in JobTypes && x.experienceLevel in Levels
    ensures TooShort("title", 3) in r <==> |x.title| < 3
    ensures TooShort("description", 50) in r <==> |x.description| < 50
  {
    AtLeast("title", x.title, 3) + AtLeast("description", x.description, 50)
    + NotBelow("salaryMin", x.salaryMin, 0) + NotBelow("salaryMax", x.salaryMax, 0)
    + OneOf("jobType", x.jobType, JobTypes) + OneOf("experienceLevel", x.experienceLevel, Levels)
  }

  /** A job whose minimum salary exceeds its maximum passes the schema. */
  lemma InvertedSalaryRangeAccepted(x: JobInput)
    requires |x.title| >= 3 && |x.description| >= 50
    requires x.jobType in JobTypes && x.experienceLevel in Levels
    requires x.salaryMin == Some(90000.0) && x.salaryMax == Some(50000.0)
    ensures JobIssues(x) == []
  {
  }

  /** `isRemote` defaults to false when the request leaves it out. */
  function IsRemote(x: JobInput): (r: bool)
    ensures x.isRemote.None? ==> !r
    ensures x.isRemote.Some? ==> r == x.isRemote.value
  {
    x.isRemote.GetOr(false)
  }

  /** The name under which a level is stored. */
  function LevelName(l: Experience.Level): string {
    match l
    case Entry => "ENTRY"
    case Junior => "JUNIOR"
    case Mid => "MID"
    case Senior => "SENIOR"
    case Lead => "LEAD"
    case Executive => "EXECUTIVE"
  }

  /** The name under which a job type is stored. */
  function JobTypeName(t: Matching.JobType): string {
    match t
    case FullTime => "FULL_TIME"
    case PartTime => "PART_TIME"
    case Contract => "CONTRACT"
    case FreeLance => "FREELANCE"
    case Internship => "INTERNSHIP"
  }

  /** The level a schema-approved name stands for: the one stored under
      that name. */
  function LevelOf(name: string): (r: Option<Experience.Level>)
    ensures r.Some? <==> name in Levels
    ensures r.Some? ==> LevelName(r.value) == name
  {
    match name
    case "ENTRY" => Some(Experience.Entry)
    case "JUNIOR" => Some(Experience.Junior)
    case "MID" => Some(Experience.Mid)
    case "SENIOR" => Some(Experience.Senior)
    case "LEAD" => Some(Experience.Lead)
    case "EXECUTIVE" => Some(Experience.Executive)
    case _ => None
  }

  /** The job type a schema-approved name stands for. */
  function JobTypeOf(name: string): (r: Option<Matching.JobType>)
    ensures r.Some? <==> name in JobTypes
    ensures r.Some? ==> JobTypeName(r.value) == name
  {
    match name
    case "FULL_TIME" => Some(Matching.FullTime)
    case "PART_TIME" => Some(Matching.PartTime)
    case "CONTRACT" => Some(Matching.Contract)
    case "FREELANCE" => Some(Matching.FreeLance)
    case "INTERNSHIP" => Some(Matching.Internship)
    case _ => None
  }

  /** Reading a stored name back gives the level or job type stored under
      it, and every stored name is one the schema accepts. */
  lemma NamesRoundTrip(l: Experience.Level, t: Matching.JobType)
    ensures LevelName(l) in Levels && LevelOf(LevelName(l)) == Some(l)
    ensures JobTypeName(t) in JobTypes && JobTypeOf(JobTypeName(t)) == Some(t)
  {
  }

  /** The schema admits JUNIOR and EXECUTIVE, which the matcher has no band
      for: such a job's level is never in band and has minimum 0. */
  lemma AcceptedLevelsWithoutBand(x: JobInput, years: real)
    requires JobIssues(x) == [] && (x.experienceLevel == "JUNIOR" || x.experienceLevel == "EXECUTIVE")
    ensures LevelOf(x.experienceLevel).Some?
    ensures Experience.MinYears(LevelOf(x.experienceLevel).value) == 0
    ensures !Experience.InBand(LevelOf(x.experienceLevel).value, years)
  {
  }

  datatype ApplicationInput = ApplicationInput(jobId: string, coverLetter: Option<string>, resumeUrl: Option<string>)

  function ApplicationIssues(f: Formats, x: ApplicationInput): (r: seq<Issue>)
    ensures r == [] <==> (x.coverLetter.None? || |x.coverLetter.value| <= 1000) && UrlOrEmpty(f, x.resumeUrl)
    ensures TooLong("coverLetter", 1000) in r <==> x.coverLetter.Some? && |x.coverLetter.value| > 1000
  {
    AtMost("coverLetter", x.coverLetter, 1000) + OptionalUrl(f, "resumeUrl", x.resumeUrl)
  }
}
