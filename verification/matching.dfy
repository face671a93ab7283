/** The job-to-candidate match-scoring engine: five weighted criteria summed
    into a score of at most 100, and the pass over the candidate pool that
    turns every score of at least 60 into a pending, system-initiated match. */
module Matching {
  import opened Wrappers
  import opened Seqs
  import Strings
  import Numbers
  import Truthy
  import opened Experience

  datatype WorkStyle = Remote | Onsite | Hybrid

  datatype JobType = FullTime | PartTime | Contract | FreeLance | Internship

  /** A job posting as the matcher reads it. An absent or empty stored skill
      list is the empty sequence. */
  datatype Job = Job(
    id: string,
    requiredSkills: seq<string>,
    experienceLevel: Option<Level>,
    remote: Option<WorkStyle>,
    jobType: Option<JobType>,
    minSalary: Option<int>,
    maxSalary: Option<int>)

  /** A jobseeker profile. `experience` is None when the stored field is
      empty, and otherwise the parsed JSON. */
  datatype Profile = Profile(
    id: string,
    skills: seq<string>,
    experience: Option<History>,
    remote: Option<WorkStyle>,
    jobType: Option<JobType>,
    minSalary: Option<int>,
    maxSalary: Option<int>,
    isActive: bool,
    profileComplete: bool)

  datatype MatchStatus = Pending | Interested | Contacted | Progressed | Rejected

  /** A match record as created by the matcher. */
  datatype Match = Match(jobId: string, jobseekerId: string, score: nat, initiatedBy: string, status: MatchStatus)

  datatype MatchError = JobNotFound

  const Threshold: nat := 60

  // ---------------------------------------------------------------- skills

  /** Some profile skill equals `skill` ignoring case (exact otherwise). */
  predicate HasSkill(profileSkills: seq<string>, skill: string) {
    exists ps :: ps in profileSkills && Strings.ToLower(ps) == Strings.ToLower(skill)
  }

  function FoundIn(profileSkills: seq<string>): string -> bool {
    skill => HasSkill(profileSkills, skill)
  }

  /** The job skills the profile has, in job order (duplicates in the job
      list count each time). */
  function MatchedSkills(jobSkills: seq<string>, profileSkills: seq<string>): seq<string> {
    Filter(FoundIn(profileSkills), jobSkills)
  }

  /** The skills criterion: 40 times the fraction of job skills found,
      rounded to the nearest integer; 0 when either list is empty. */
  function SkillPoints(jobSkills: seq<string>, profileSkills: seq<string>): (r: nat)
    ensures r <= 40
    ensures |jobSkills| == 0 || |profileSkills| == 0 ==> r == 0
    ensures |jobSkills| > 0 && |profileSkills| > 0 ==>
      var n, m := |jobSkills|, |MatchedSkills(jobSkills, profileSkills)|;
      2 * r * n <= 80 * m + n < 2 * r * n + 2 * n
  {
    if |jobSkills| > 0 && |profileSkills| > 0 then
      var n, m := |jobSkills|, |MatchedSkills(jobSkills, profileSkills)|;
      Numbers.RoundAtMost(40 * m, n, 40);
      Numbers.RoundHalfUp(40 * m, n)
    else 0
  }

  /** Every job skill found gives the full 40; none found gives 0. */
  lemma SkillPointsExtremes(jobSkills: seq<string>, profileSkills: seq<string>)
    requires |jobSkills| > 0 && |profileSkills| > 0
    ensures (forall s :: s in jobSkills ==> HasSkill(profileSkills, s)) ==> SkillPoints(jobSkills, profileSkills) == 40
    ensures (forall s :: s in jobSkills ==> !HasSkill(profileSkills, s)) ==> SkillPoints(jobSkills, profileSkills) == 0
  {
    var n := |jobSkills|;
    if forall s :: s in jobSkills ==> HasSkill(profileSkills, s) {
      FilterAll(FoundIn(profileSkills), jobSkills);
      Numbers.RoundExact(40, n);
    }
    if forall s :: s in jobSkills ==> !HasSkill(profileSkills, s) {
      Numbers.RoundExact(0, n);
    }
  }

  /** Matching is case-insensitive: lower-casing the profile's skills does
      not change the skills criterion. */
  lemma SkillPointsIgnoreCase(jobSkills: seq<string>, profileSkills: seq<string>)
    ensures SkillPoints(jobSkills, LowerAll(profileSkills)) == SkillPoints(jobSkills, profileSkills)
  {
    var lowered := LowerAll(profileSkills);
    forall s | s in jobSkills
      ensures HasSkill(lowered, s) == HasSkill(profileSkills, s)
    {
      if HasSkill(profileSkills, s) {
        var ps :| ps in profileSkills && Strings.ToLower(ps) == Strings.ToLower(s);
        var i :| 0 <= i < |profileSkills| && profileSkills[i] == ps;
        Strings.ToLowerIdempotent(ps);
        assert lowered[i] in lowered;
      }
      if HasSkill(lowered, s) {
        var ps :| ps in lowered && Strings.ToLower(ps) == Strings.ToLower(s);
        var i :| 0 <= i < |lowered| && lowered[i] == ps;
        Strings.ToLowerIdempotent(profileSkills[i]);
        assert profileSkills[i] in profileSkills;
      }
    }
    FilterSame(FoundIn(lowered), FoundIn(profileSkills), jobSkills);
  }

  function LowerAll(ss: seq<string>): (r: seq<string>)
    ensures |r| == |ss|
    ensures forall i :: 0 <= i < |ss| ==> r[i] == Strings.ToLower(ss[i])
  {
    seq(|ss|, i requires 0 <= i < |ss| => Strings.ToLower(ss[i]))
  }

  /** Two tests that agree on every element select the same elements. */
  lemma {:induction false} FilterSame(p: string -> bool, q: string -> bool, s: seq<string>)
    requires forall x :: x in s ==> p(x) == q(x)
    ensures Filter(p, s) == Filter(q, s)
    decreases |s|
  {
    if |s| > 0 {
      assert forall x :: x in s[1..] ==> x in s;
      FilterSame(p, q, s[1..]);
    }
  }

  // ------------------------------------------------------ other criteria

  /** The work-style criterion: 15 when both sides are set and equal, or
      either side is HYBRID. */
  function WorkStylePoints(job: Option<WorkStyle>, profile: Option<WorkStyle>): (r: nat)
    ensures r == 0 || r == 15
    ensures r == 15 <==> job.Some? && profile.Some? && (job == profile || job == Some(Hybrid) || profile == Some(Hybrid))
  {
    if job.Some? && profile.Some? && (job == profile || job == Some(Hybrid) || profile == Some(Hybrid)) then 15 else 0
  }

  /** The job-type criterion: 10 when the two stored values are equal,
      which includes both being absent. */
  function JobTypePoints(job: Option<JobType>, profile: Option<JobType>): (r: nat)
    ensures r == 0 || r == 10
    ensures r == 10 <==> job == profile
  {
    if job == profile then 10 else 0
  }

  /** The two salary ranges intersect. */
  predicate Overlap(jobMin: int, jobMax: int, profileMin: int, profileMax: int) {
    !(jobMax < profileMin || jobMin > profileMax)
  }

  function Abs(x: int): nat {
    if x < 0 then -x else x
  }

  /** The salary criterion, applied only when all four bounds are truthy:
      15 for overlapping ranges, else 7 when the minimums are within 10000. */
  function SalaryPoints(jobMin: Option<int>, jobMax: Option<int>, profileMin: Option<int>, profileMax: Option<int>): (r: nat)
    ensures r == 0 || r == 7 || r == 15
    ensures var all := Truthy.Number(jobMin) && Truthy.Number(jobMax) && Truthy.Number(profileMin) && Truthy.Number(profileMax);
      && (r == 15 <==> all && Overlap(jobMin.value, jobMax.value, profileMin.value, profileMax.value))
      && (r == 7 <==> all && !Overlap(jobMin.value, jobMax.value, profileMin.value, profileMax.value)
                         && Abs(jobMin.value - profileMin.value) <= 10000)
  {
    if Truthy.Number(jobMin) && Truthy.Number(jobMax) && Truthy.Number(profileMin) && Truthy.Number(profileMax) then
      if Overlap(jobMin.value, jobMax.value, profileMin.value, profileMax.value) then 15
      else if Abs(jobMin.value - profileMin.value) <= 10000 then 7
      else 0
    else 0
  }

  /** Salary compatibility does not depend on which range is the job's. */
  lemma SalaryPointsSymmetric(a: Option<int>, b: Option<int>, c: Option<int>, d: Option<int>)
    ensures SalaryPoints(a, b, c, d) == SalaryPoints(c, d, a, b)
  {
  }

  /** Work-style compatibility does not depend on which side is the job. */
  lemma WorkStylePointsSymmetric(a: Option<WorkStyle>, b: Option<WorkStyle>)
    ensures WorkStylePoints(a, b) == WorkStylePoints(b, a)
  {
  }

  // ------------------------------------------------------------- score

  /** The five criterion contributions of one (job, profile) pair. */
  datatype Breakdown = Breakdown(skills: nat, experience: nat, workStyle: nat, jobType: nat, salary: nat) {
    function Total(): nat {
      skills + experience + workStyle + jobType + salary
    }
  }

  function Criteria(job: Job, p: Profile, now: YearMonth): (b: Breakdown)
    ensures b.skills <= 40 && b.experience <= 20 && b.workStyle <= 15 && b.jobType <= 10 && b.salary <= 15
  {
    Breakdown(
      SkillPoints(job.requiredSkills, p.skills),
      ExperiencePoints(job.experienceLevel, p.experience, now),
      WorkStylePoints(job.remote, p.remote),
      JobTypePoints(job.jobType, p.jobType),
      SalaryPoints(job.minSalary, job.maxSalary, p.minSalary, p.maxSalary))
  }

  /** `calculateMatchScore`: the rounded sum of the criteria, capped at 100.
      Only the skills term can be fractional and the others are integers, so
      rounding the sum is rounding the skills term. */
  function Score(job: Job, p: Profile, now: YearMonth): (r: nat)
    ensures r <= 100
  {
    var total := Criteria(job, p, now).Total();
    if total < 100 then total else 100
  }

  /** The cap never takes effect: the weights add up to exactly 100. */
  lemma ScoreIsUncappedSum(job: Job, p: Profile, now: YearMonth)
    ensures Score(job, p, now) == Criteria(job, p, now).Total()
  {
  }

  /** A score of 100 means every criterion gave its full weight. */
  lemma FullScoreIffAllCriteria(job: Job, p: Profile, now: YearMonth)
    ensures Score(job, p, now) == 100 <==> Criteria(job, p, now) == Breakdown(40, 20, 15, 10, 15)
  {
  }

  // -------------------------------------------------------- runMatching

  /** The matcher's scoring of every candidate against one job. */
  function ScoreFor(job: Job, now: YearMonth): Profile -> nat {
    p => Score(job, p, now)
  }

  function Qualifies(score: Profile -> nat): Profile -> bool {
    p => score(p) >= Threshold
  }

  function MatchFor(jobId: string, score: Profile -> nat, p: Profile): Match {
    Match(jobId, p.id, score(p), "SYSTEM", Pending)
  }

  /** The matches the pass creates: one per candidate whose score is at
      least the threshold, in pool order. */
  function MatchesFor(jobId: string, score: Profile -> nat, pool: seq<Profile>): (ms: seq<Match>)
    ensures |ms| <= |pool|
    ensures forall m :: m in ms ==>
      m.status == Pending && m.initiatedBy == "SYSTEM" && m.jobId == jobId && m.score >= Threshold
    decreases |pool|
  {
    if |pool| == 0 then []
    else
      (if score(pool[0]) >= Threshold then [MatchFor(jobId, score, pool[0])] else [])
      + MatchesFor(jobId, score, pool[1..])
  }

  /** The profiles the matcher reads: active ones whose profile is complete. */
  function Eligible(): Profile -> bool {
    (p: Profile) => p.isActive && p.profileComplete
  }

  /** `runMatching`: fails when the job is missing; otherwise takes the
      active, complete profiles of the store in order, scores each one, and
      creates a pending, system-initiated match for each one scoring at
      least 60. */
  method RunMatching(job: Option<Job>, rows: seq<Profile>, now: YearMonth) returns (r: Result<seq<Match>, MatchError>)
    ensures job.None? ==> r == Failure(JobNotFound)
    ensures job.Some? ==> r == Success(MatchesFor(job.value.id, ScoreFor(job.value, now), Filter(Eligible(), rows)))
    ensures r.Success? ==> forall m :: m in r.value ==>
      exists p :: p in rows && p.id == m.jobseekerId && p.isActive && p.profileComplete
  {
    if job.None? {
      return Failure(JobNotFound);
    }
    var pool := Filter(Eligible(), rows);
    var matches := MatchPool(job.value.id, ScoreFor(job.value, now), pool);
    MatchesComeFromPool(job.value.id, ScoreFor(job.value, now), pool);
    return Success(matches);
  }

  /** Every match belongs to a candidate of the pool. */
  lemma MatchesComeFromPool(jobId: string, score: Profile -> nat, pool: seq<Profile>)
    ensures forall m :: m in MatchesFor(jobId, score, pool) ==> exists p :: p in pool && p.id == m.jobseekerId
  {
    MatchIffQualifies(jobId, score, pool);
  }

  /** The loop of `runMatching` over the candidate pool. */
  method MatchPool(jobId: string, score: Profile -> nat, pool: seq<Profile>) returns (matches: seq<Match>)
    ensures matches == MatchesFor(jobId, score, pool)
  {
    matches := [];
    var k := 0;
    while k < |pool|
      invariant 0 <= k <= |pool|
      invariant matches + MatchesFor(jobId, score, pool[k..]) == MatchesFor(jobId, score, pool)
    {
      var p := pool[k];
      assert pool[k..][1..] == pool[k + 1..];
      var s := score(p);
      if s >= Threshold {
        matches := matches + [Match(jobId, p.id, s, "SYSTEM", Pending)];
      }
      k := k + 1;
    }
    assert pool[k..] == [];
  }

  /** Every score the matcher records is at most 100. */
  lemma MatchScoresAtMostHundred(job: Job, pool: seq<Profile>, now: YearMonth)
    ensures forall m :: m in MatchesFor(job.id, ScoreFor(job, now), pool) ==> m.score <= 100
  {
    MatchIffQualifies(job.id, ScoreFor(job, now), pool);
  }

  /** Each candidate of `ps` turned into its match, in order. */
  function MatchesOf(jobId: string, score: Profile -> nat, ps: seq<Profile>): (ms: seq<Match>)
    ensures |ms| == |ps|
    ensures forall i :: 0 <= i < |ps| ==> ms[i] == MatchFor(jobId, score, ps[i])
    decreases |ps|
  {
    if |ps| == 0 then [] else [MatchFor(jobId, score, ps[0])] + MatchesOf(jobId, score, ps[1..])
  }

  /** The created matches are exactly the qualifying candidates' matches,
      in pool order: the pool filtered by the threshold, mapped to matches. */
  lemma {:induction false} MatchesAreQualifyingCandidates(jobId: string, score: Profile -> nat, pool: seq<Profile>)
    ensures MatchesFor(jobId, score, pool) == MatchesOf(jobId, score, Filter(Qualifies(score), pool))
    decreases |pool|
  {
    if |pool| > 0 {
      MatchesAreQualifyingCandidates(jobId, score, pool[1..]);
      QualifyingStep(jobId, score, pool);
    }
  }

  lemma QualifyingStep(jobId: string, score: Profile -> nat, pool: seq<Profile>)
    requires |pool| > 0
    requires MatchesFor(jobId, score, pool[1..]) == MatchesOf(jobId, score, Filter(Qualifies(score), pool[1..]))
    ensures MatchesFor(jobId, score, pool) == MatchesOf(jobId, score, Filter(Qualifies(score), pool))
  {
    var qr := Filter(Qualifies(score), pool[1..]);
    if score(pool[0]) >= Threshold {
      assert Filter(Qualifies(score), pool) == [pool[0]] + qr;
      assert ([pool[0]] + qr)[1..] == qr;
    } else {
      assert Filter(Qualifies(score), pool) == qr;
    }
  }

  /** Every candidate scoring at least 60 gets a match, and every match
      comes from such a candidate of the pool. */
  lemma {:induction false} MatchIffQualifies(jobId: string, score: Profile -> nat, pool: seq<Profile>)
    ensures forall i :: 0 <= i < |pool| && score(pool[i]) >= Threshold ==>
      MatchFor(jobId, score, pool[i]) in MatchesFor(jobId, score, pool)
    ensures forall m :: m in MatchesFor(jobId, score, pool) ==>
      exists i :: 0 <= i < |pool| && m == MatchFor(jobId, score, pool[i]) && score(pool[i]) >= Threshold
    decreases |pool|
  {
    if |pool| > 0 {
      MatchIffQualifies(jobId, score, pool[1..]);
      var ms := MatchesFor(jobId, score, pool);
      var rest := MatchesFor(jobId, score, pool[1..]);
      assert forall m :: m in rest ==> m in ms;
      assert forall i :: 1 <= i < |pool| ==> pool[i] == pool[1..][i - 1];
      forall m | m in ms
        ensures exists i :: 0 <= i < |pool| && m == MatchFor(jobId, score, pool[i]) && score(pool[i]) >= Threshold
      {
        if m !in rest {
          assert m == MatchFor(jobId, score, pool[0]) && score(pool[0]) >= Threshold;
        } else {
          var i :| 0 <= i < |pool[1..]| && m == MatchFor(jobId, score, pool[1..][i]) && score(pool[1..][i]) >= Threshold;
          assert pool[i + 1] == pool[1..][i];
        }
      }
    }
  }

  /** Scores of 59 and 60 sit on either side of the inclusive threshold. */
  lemma ThresholdIsInclusive(job: Job, p: Profile, now: YearMonth)
    ensures Score(job, p, now) == 60 ==> MatchesFor(job.id, ScoreFor(job, now), [p]) == [Match(job.id, p.id, 60, "SYSTEM", Pending)]
    ensures Score(job, p, now) == 59 ==> MatchesFor(job.id, ScoreFor(job, now), [p]) == []
  {
    assert [p][1..] == [];
  }
}
