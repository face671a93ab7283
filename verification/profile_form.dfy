/** The resume auto-fill of the profile form: the data extracted from an
    uploaded resume is merged into the form's current values. */
module ProfileForm {
  import opened Wrappers
  import opened Seqs
  import opened ExperienceForm

  /** The profile form's state; salaries are the raw input texts. */
  datatype FormData = FormData(
    bio: string,
    location: string,
    phone: string,
    skills: seq<string>,
    experience: seq<ExperienceItem>,
    education: seq<ExperienceItem>,
    resumeUrl: string,
    portfolioUrl: string,
    jobType: string,
    remote: string,
    minSalary: string,
    maxSalary: string,
    availability: string,
    isActive: bool)

  /** What the resume parser returned; any part may be missing. */
  datatype ResumeData = ResumeData(
    bio: Option<string>,
    skills: Option<seq<string>>,
    experience: Option<seq<ExperienceItem>>,
    education: Option<seq<ExperienceItem>>)

  /** `handleResumeUpload`: the skills become the de-duplicated previous
      skills followed by the uploaded ones, uploaded entries go in front of
      the existing ones, a non-empty uploaded bio replaces the bio, and no
      other field changes. */
  function MergeResume(prev: FormData, data: ResumeData): (r: FormData)
    ensures NoDuplicates(r.skills)
    ensures forall i :: 0 <= i < |prev.skills| ==> prev.skills[i] in r.skills
    ensures forall i :: 0 <= i < |data.skills.GetOr([])| ==> data.skills.GetOr([])[i] in r.skills
    ensures forall i :: 0 <= i < |r.skills| ==> r.skills[i] in prev.skills || r.skills[i] in data.skills.GetOr([])
    ensures r.experience == data.experience.GetOr([]) + prev.experience
    ensures r.education == data.education.GetOr([]) + prev.education
    ensures r.bio == if data.bio.Some? && data.bio.value != "" then data.bio.value else prev.bio
    ensures r == prev.(bio := r.bio, skills := r.skills, experience := r.experience, education := r.education)
  {
    var uploaded := data.skills.GetOr([]);
    var all := prev.skills + uploaded;
    var skills := Dedup(all);
    assert forall i :: 0 <= i < |prev.skills| ==> prev.skills[i] == all[i];
    assert forall i :: 0 <= i < |uploaded| ==> uploaded[i] == all[|prev.skills| + i];
    prev.(
      bio := if data.bio.Some? && data.bio.value != "" then data.bio.value else prev.bio,
      skills := skills,
      experience := data.experience.GetOr([]) + prev.experience,
      education := data.education.GetOr([]) + prev.education)
  }

  /** With duplicate-free previous skills, the merge keeps them first, in
      their order, and appends the uploaded skills not already present, in
      upload order and once each. */
  lemma MergeKeepsOrder(prev: FormData, data: ResumeData)
    requires NoDuplicates(prev.skills)
    ensures MergeResume(prev, data).skills ==
      prev.skills + Dedup(Filter(NotIn(prev.skills), data.skills.GetOr([])))
  {
    DedupAppend(prev.skills, data.skills.GetOr([]));
    DedupOfDistinct(prev.skills);
  }

  /** Uploading the same resume twice adds no skill the second time. */
  lemma MergeSkillsIdempotent(prev: FormData, data: ResumeData)
    ensures MergeResume(MergeResume(prev, data), data).skills == MergeResume(prev, data).skills
  {
    var once := MergeResume(prev, data);
    MergeKeepsOrder(once, data);
    var uploaded := data.skills.GetOr([]);
    var f := Filter(NotIn(once.skills), uploaded);
    assert Dedup(f) == [];
    assert once.skills + [] == once.skills;
  }
}
