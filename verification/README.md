# lokersaurus — a Dafny model of the matching core

lokersaurus is a job board. Companies post jobs and jobseekers keep profiles. Its centre is an automatic matcher. The matcher scores every active, complete profile against a job on five weighted criteria:

| criterion | weight |
|---|---|
| skills | 40 |
| experience band | 20 |
| work style | 15 |
| job type | 10 |
| salary | 15 |

It creates a PENDING, SYSTEM-initiated match for every candidate that scores at least 60.

Around the matcher sit smaller pieces of logic, which this project also models:
- the save route that normalises a profile and decides whether it is complete (only complete profiles enter the matching pool);
- the HR talent-search filters;
- the profile editors for skill tags, experience entries and resume autofill;
- the assessment quiz;
- the admin moderation routes, with their pagination;
- the request schemas.

Everything is pure functions over immutable datatypes and sequences. The database, sessions, React state and the clock are parameters.

## Modules

| module | contents |
|---|---|
| `Wrappers`, `Truthy` | `Option` and `Result`; JavaScript truthiness (absent, `""` and `0` are falsy) |
| `Seqs` | order-preserving `Filter` with the subsequence relation, insertion-ordered `Dedup` (a `Set` spread back into an array), `RemoveAt` (filter by index) |
| `Strings` | ASCII `toLowerCase`, `trim`, `split` on one character with its `join` inverse, `includes` |
| `Numbers` | `Math.round` of a non-negative fraction (round half up), `Math.ceil` of a division |
| `JsInt` | `parseInt` without a radix, and `String(n)` for integers |
| `Experience` | years of experience from a work history, the level bands and the experience criterion |
| `Matching` | the five criteria, the score, and the matching pass over the candidate pool |
| `CandidateSearch` | the HR search: the active/complete pool of at most 50, then the skills, work-style and minimum-salary stages |
| `SkillsInput`, `ExperienceForm`, `ProfileForm` | the profile editors as state transitions |
| `Quiz` | answer recording, navigation, and the rounded percentage with its pass verdict |
| `Http`, `AdminQuery`, `AdminJobs`, `AdminUsers` | sessions and replies; shared paging and filter arithmetic; the job-moderation and user-management routes |
| `Validations` | the zod schemas as issue lists |
| `JobseekerProfile` | the profile save route |

Arithmetic is exact:
- Years are rationals: months / 12.
- The skills term `round(40·m/n)` is computed as an integer. The other four terms are integers, so rounding the sum is the same as rounding the skills term.
- The quiz score rounds `100·correct/n` half up.
- NaN is `None`: a history entry with an unparseable date, a quiz with no questions, and `parseInt` of text without digits.

The model follows the code, also where it departs from what the source comments and names suggest:
- The job-type criterion compares the raw values. Two absent job types are equal and earn the 10 points.
- The experience-level enum admits JUNIOR and EXECUTIVE. The matcher has no band for either: they are never in band and have minimum 0.
- A history entry whose end date is empty or missing and that is not marked current is not open-ended. The text `"-01"` (or `"undefined-01"`) is not an ISO date, and the engine's fallback date parser reads it as January 2001. So such an entry runs to January 2001. The mock resume parser returns such an entry (January 2022, marked "Present" only in a comment), and it subtracts 252 months: `Experience.MockResumeHistoryIsNegative`.
- Only an end that is not a date at all (an Invalid Date) makes the total NaN, so the criterion gives 0: `Experience.UnparseableEndGivesNothing`.

## Model

| member | source | states |
|---|---|---|
| Experience.EntryMonths | src/lib/matching.ts:117-125 | an entry without a start date adds 0; a current entry runs to "now"; a non-current entry with a blank end runs to January 2001; a non-current entry whose end is not a date, or an unparseable start, is NaN; otherwise the signed month difference |
| Experience.TotalMonths | src/lib/matching.ts:114-126 | the total is NaN exactly when some entry is NaN |
| Experience.TotalMonthsAppend | src/lib/matching.ts:117-126 | concurrent jobs simply add: the total of two lists is the sum of their totals |
| Experience.TotalMonthsSwap | src/lib/matching.ts:117-126 | the order of the entries does not change the total |
| Experience.SkipsEntryWithoutStart | src/lib/matching.ts:118 | inserting an entry without a start date anywhere leaves the total unchanged |
| Experience.NegativeSpanSubtracts | src/lib/matching.ts:123-125 | an end before the start is not clamped; 2021-06 to 2021-01 counts -5 months |
| Experience.Years | src/lib/matching.ts:111-129 | a history that is not a list gives 0 years; otherwise years times 12 equals the month total, NaN when that is NaN |
| Experience.BandStartsAtMinimum | src/lib/matching.ts:134-160 | every band starts at its level's minimum; JUNIOR and EXECUTIVE are never in band and have minimum 0 |
| Experience.ExperiencePoints | src/lib/matching.ts:66-78 | the criterion is 0, 10 or 20; 20 exactly when the years are in band; 10 exactly when they are out of band but above the level minimum; nothing without a level, a history or a number |
| Experience.LeadNeverPartial | src/lib/matching.ts:134-160 | LEAD can never earn the 10-point partial credit |
| Experience.UnbandedLevels | src/lib/matching.ts:134-160 | JUNIOR and EXECUTIVE never get 20, and get 10 exactly for a positive number of years |
| Experience.EmptyHistoryIsEntryLevel | src/lib/matching.ts:66-78 | an empty stored history is 0 years: ENTRY gets 20, MID gets 0 |
| Experience.UnparseableEndGivesNothing | src/lib/matching.ts:121-125 | a non-current entry whose end is not a date makes the criterion 0 for every level |
| Experience.BlankEndReadsAs2001 | src/lib/matching.ts:121-125 | a non-current entry from January 1990 with an empty end counts 132 months, in the LEAD band |
| Experience.MockResumeHistoryIsNegative | src/app/api/resume/parse/route.ts:19-34 | the mock parser's history totals -231 months, so even an ENTRY job gives no experience credit |
| Experience.CurrentEntryUsesNow | src/lib/matching.ts:121 | a current entry from 2015-01 with "now" 2024-01 is nine years, in the SENIOR band |
| Matching.SkillPoints | src/lib/matching.ts:55-64 | at most 40; 0 when either skill list is empty; otherwise the integer nearest 40·found/required, with halves rounded up |
| Matching.SkillPointsExtremes | src/lib/matching.ts:58-63 | every required skill found gives 40; none found gives 0 |
| Matching.SkillPointsIgnoreCase | src/lib/matching.ts:60 | lower-casing the profile's skills does not change the skills criterion |
| Matching.LowerAll | src/lib/matching.ts:60 | each skill lower-cased, position by position |
| Matching.FilterSame | src/lib/matching.ts:59-61 | two tests that agree on every element select the same elements |
| Matching.WorkStylePoints | src/lib/matching.ts:81-87 | 15 exactly when both sides are set and are equal or one is HYBRID; 0 otherwise |
| Matching.WorkStylePointsSymmetric | src/lib/matching.ts:82-84 | the work-style criterion does not depend on which side is the job |
| Matching.JobTypePoints | src/lib/matching.ts:90-92 | 10 exactly when the two raw values are equal, both absent included |
| Matching.SalaryPoints | src/lib/matching.ts:95-103 | nothing unless all four bounds are truthy; 15 when the ranges overlap; 7 when they do not but the minimums are within 10000; 0 otherwise |
| Matching.SalaryPointsSymmetric | src/lib/matching.ts:95-103 | swapping the job's and the profile's ranges gives the same salary points |
| Matching.Criteria | src/lib/matching.ts:51-103 | each criterion stays within its weight (40/20/15/10/15) |
| Matching.Score | src/lib/matching.ts:105 | the score never exceeds 100 |
| Matching.ScoreIsUncappedSum | src/lib/matching.ts:51-105 | the cap never bites: the score is the plain sum of the five criteria |
| Matching.FullScoreIffAllCriteria | src/lib/matching.ts:51-105 | a score of 100 exactly when every criterion gives its full weight |
| Matching.MatchesFor | src/lib/matching.ts:26-42 | at most one match per candidate; each match is PENDING, SYSTEM-initiated, for this job, with a score of at least 60 |
| Matching.RunMatching | src/lib/matching.ts:7-45 | a missing job fails before any match is made; otherwise the matches of the active, complete profiles in store order, each for an active, complete profile of the store |
| Matching.MatchesComeFromPool | src/lib/matching.ts:26-41 | every match names a candidate of the scored pool |
| Matching.MatchPool | src/lib/matching.ts:24-44 | the loop over the pool produces exactly the matches of the pass |
| Matching.MatchScoresAtMostHundred | src/lib/matching.ts:27-35 | every recorded score is at most 100 |
| Matching.MatchesAreQualifyingCandidates | src/lib/matching.ts:26-42 | the matches are the qualifying candidates' matches, in candidate order |
| Matching.MatchIffQualifies | src/lib/matching.ts:30-40 | every candidate scoring at least 60 gets a match, and every match comes from such a candidate |
| Matching.ThresholdIsInclusive | src/lib/matching.ts:30 | a score of 60 yields a match and a score of 59 does not |
| CandidateSearch.LoadPool | src/app/candidates/page.tsx:29-46 | at most 50 profiles, all active and complete, the first eligible rows in order |
| CandidateSearch.SkillsStage | src/app/candidates/page.tsx:51-58 | no parameter leaves the list unchanged; otherwise an order-preserving subsequence holding exactly the candidates with a lower-cased skill equal to some trimmed, lower-cased comma-separated term |
| CandidateSearch.NoSkillsNeverFound | src/app/candidates/page.tsx:54 | a candidate without stored skills is dropped whenever a skills filter is given |
| CandidateSearch.SkillsStageIgnoresCase | src/app/candidates/page.tsx:52 | the skills parameter's letter case does not matter |
| CandidateSearch.RemoteStage | src/app/candidates/page.tsx:60-62 | no parameter leaves the list unchanged; otherwise exactly the candidates whose work style equals the parameter |
| CandidateSearch.RemoteStageHasNoHybridLeniency | src/app/candidates/page.tsx:61 | a HYBRID candidate is not kept by a REMOTE search |
| CandidateSearch.SalaryStage | src/app/candidates/page.tsx:64-67 | no parameter leaves the list unchanged; a NaN minimum drops everyone; otherwise exactly the candidates with a truthy maximum salary at least the minimum |
| CandidateSearch.Search | src/app/candidates/page.tsx:29-67 | the result is a subsequence of at most 50 active, complete profiles; without parameters it is the loaded pool |
| SkillsInput.AddSkill | src/components/profile/SkillsInput.tsx:14-20 | the trimmed input is appended, and the input cleared, exactly when it is non-empty and not already present; otherwise nothing changes |
| SkillsInput.RemoveSkill | src/components/profile/SkillsInput.tsx:22-24 | an in-range index removes exactly that tag and keeps the others in order; any other index changes nothing |
| SkillsInput.KeyDown | src/components/profile/SkillsInput.tsx:26-33 | Enter attempts an add; Backspace on empty input removes the last tag when there is one; everything else changes nothing |
| SkillsInput.AddSkillKeepsWellFormed | src/components/profile/SkillsInput.tsx:15-17 | a duplicate-free list of non-empty trimmed tags stays so after an add |
| SkillsInput.RemoveSkillKeepsWellFormed | src/components/profile/SkillsInput.tsx:22-24 | removing a tag keeps the list well formed |
| SkillsInput.KeyDownKeepsWellFormed | src/components/profile/SkillsInput.tsx:26-33 | no key press breaks a well-formed list |
| SkillsInput.BlankInputAddsNothing | src/components/profile/SkillsInput.tsx:15-16 | whitespace-only input leaves the editor unchanged |
| ExperienceForm.Apply | src/components/profile/ExperienceForm.tsx:48 | the edited field takes the new value and every other field keeps its value |
| ExperienceForm.BlankItem | src/components/profile/ExperienceForm.tsx:28-36 | empty title, dates and description, not current; a company field for work and an institution field for education |
| ExperienceForm.AddItem | src/components/profile/ExperienceForm.tsx:27-39 | one blank entry appended after the unchanged existing ones, and the new entry expanded |
| ExperienceForm.RemoveItem | src/components/profile/ExperienceForm.tsx:41-44 | the entries without the one at the index; removing the expanded entry collapses the view, any other expanded index is kept |
| ExperienceForm.RemoveItemKeepsOthers | src/components/profile/ExperienceForm.tsx:42 | removing an in-range entry shortens the list by one and keeps the others in order |
| ExperienceForm.ExpandedIndexNotShifted | src/components/profile/ExperienceForm.tsx:43 | removing an entry before the expanded one keeps the index, which then designates the following entry |
| ExperienceForm.UpdateItem | src/components/profile/ExperienceForm.tsx:46-50 | only the given field of the given entry changes; the length and all other entries stay the same |
| ExperienceForm.ToggleExpanded | src/components/profile/ExperienceForm.tsx:56 | clicking a header expands it, or collapses it when it is the expanded one |
| ExperienceForm.ToggleTwice | src/components/profile/ExperienceForm.tsx:56 | clicking the same header twice restores the view when nothing or that entry was expanded, and otherwise leaves everything collapsed |
| ProfileForm.MergeResume | src/components/profile/ProfileForm.tsx:15-23 | merged skills are duplicate-free and hold exactly the previous and the uploaded skills; uploaded entries are prepended; an empty or missing bio keeps the old one; no other field changes |
| ProfileForm.MergeKeepsOrder | src/components/profile/ProfileForm.tsx:19 | previous skills come first in their order, then the new ones in upload order |
| ProfileForm.MergeSkillsIdempotent | src/components/profile/ProfileForm.tsx:19 | uploading the same resume twice gives the same skills as once |
| Quiz.CorrectCount | src/components/assessments/QuizInterface.tsx:51-54 | the number of indices whose answer is the correct option; so at most the number of questions, equal to it exactly when every answer is correct, and 0 exactly when none is |
| Quiz.NoAnswersNoneCorrect | src/components/assessments/QuizInterface.tsx:53 | an unanswered question is never correct |
| Quiz.FinalScore | src/components/assessments/QuizInterface.tsx:56 | NaN exactly for an empty quiz; otherwise at most 100 and the integer nearest 100·correct/n, with halves rounded up |
| Quiz.FinalScoreExtremes | src/components/assessments/QuizInterface.tsx:56 | all correct scores 100, none correct scores 0 |
| Quiz.FinalScoreMonotone | src/components/assessments/QuizInterface.tsx:56 | more correct answers never lower the score |
| Quiz.SubmitQuiz | src/components/assessments/QuizInterface.tsx:49-57 | passed exactly when the score is a number at least the passing score |
| Quiz.SetAnswer | src/components/assessments/QuizInterface.tsx:33-37 | the answer at the current index is set, the array grows to cover it, and every other answer reads the same |
| Quiz.Next | src/components/assessments/QuizInterface.tsx:39-45 | moves to the next question unless at the last one, where it submits |
| Quiz.NextStaysInRange | src/components/assessments/QuizInterface.tsx:39-45 | the question index always stays below the number of questions |
| AdminQuery.SkipSteps | src/app/api/admin/jobs/route.ts:18 | the first page starts at row 0 and each page one limit after the previous |
| AdminQuery.PageHoldsRow | src/app/api/admin/jobs/route.ts:18 | with a positive limit, row i lies on exactly page i div limit + 1 |
| AdminQuery.Pages | src/app/api/admin/jobs/route.ts:61 | null exactly for a zero limit; for a positive limit, pages·limit covers the total and (pages−1)·limit falls short of it |
| AdminQuery.PagesCoverRows | src/app/api/admin/users/route.ts:18-61 | every row lies on a page between 1 and the page count, and every such page starts before the end |
| AdminQuery.ExactFilter | src/app/api/admin/jobs/route.ts:15-24 | no filter exactly when the parameter is absent, empty or "ALL"; otherwise the parameter itself |
| AdminQuery.List | src/app/api/admin/users/route.ts:13-64 | page defaults to 1 and limit to 10; the selected rows are an order-preserving subsequence holding exactly the rows the where-clause admits; the total counts them |
| AdminJobs.GetJobs | src/app/api/admin/jobs/route.ts:5-65 | non-admins get 401; each listed job passes the status filter (unless "ALL" or absent) and the title/company search (unless empty) |
| AdminJobs.NoFilterListsAll | src/app/api/admin/jobs/route.ts:15-31 | status "ALL" or absent and an empty search select every job |
| AdminJobs.ListsEverySelectedJob | src/app/api/admin/jobs/route.ts:20-31 | every job meeting both filters is selected |
| AdminJobs.PatchJob | src/app/api/admin/jobs/route.ts:72-102 | 401 for non-admins, 400 for a missing field, 400 for a status outside DRAFT/ACTIVE/CLOSED/REJECTED, 500 for an unknown job, all with the store untouched; otherwise only that job's status changes |
| AdminJobs.PatchIgnoresCurrentStatus | src/app/api/admin/jobs/route.ts:86-100 | the outcome does not depend on the job's current status (a forced transition) |
| AdminJobs.PatchIdempotent | src/app/api/admin/jobs/route.ts:92-100 | repeating a successful request changes nothing further |
| AdminUsers.GetUsers | src/app/api/admin/users/route.ts:5-65 | non-admins get 401; each listed user passes the role filter (unless "ALL" or absent) and matches the search on name or email (unless empty) |
| AdminUsers.NoFilterListsAll | src/app/api/admin/users/route.ts:15-31 | role "ALL" or absent and an empty search select every user |
| AdminUsers.ListsEverySelectedUser | src/app/api/admin/users/route.ts:20-31 | a search hit on either name or email, with the role filter met, is enough to be listed |
| AdminUsers.PatchUser | src/app/api/admin/users/route.ts:72-105 | 401 for non-admins, 400 for a missing field, 400 for an action other than BAN or ROLE, all with the store untouched; on success only the addressed user changes, BAN never touches the role and ROLE never touches the ban flag, and the reply shows the user's id, name, new role and ban flag but not the email |
| AdminUsers.BanSetsFlag | src/app/api/admin/users/route.ts:89-91 | BAN with a boolean on an existing user succeeds and sets the flag |
| AdminUsers.RoleIsNotValidated | src/app/api/admin/users/route.ts:92-94 | ROLE stores any string given, known role or not |
| Validations.AtLeast | src/lib/validations.ts:6 | a minimum-length check passes exactly for strings at least that long, else reports that field |
| Validations.AtMost | src/lib/validations.ts:19 | an optional maximum-length check passes for an absent value or one within the bound |
| Validations.NotBelow | src/lib/validations.ts:43-44 | an optional number passes when absent or not below the bound |
| Validations.OneOf | src/lib/validations.ts:13 | an enum check passes exactly for listed values |
| Validations.Email | src/lib/validations.ts:5 | the email check passes exactly when the format predicate holds |
| Validations.OptionalUrl | src/lib/validations.ts:22-23 | absent, empty or a URL passes |
| Validations.LoginIssues | src/lib/validations.ts:4-7 | accepted exactly for a valid email and a password of at least 6 characters |
| Validations.RegisterIssues | src/lib/validations.ts:9-15 | accepted exactly for a valid email, a password of at least 6, a name of at least 2 and a role among JOBSEEKER/HR/ADMIN; company name never checked |
| Validations.ShortPasswordRejected | src/lib/validations.ts:4-11 | a password under 6 characters fails both sign-in and sign-up |
| Validations.RegisterAcceptsAdminAndBareHr | src/lib/validations.ts:12-14 | ADMIN is an accepted role, and HR needs no company name |
| Validations.JobseekerProfileIssues | src/lib/validations.ts:18-25 | accepted exactly with a bio of at most 500 and resume/portfolio links that are absent, empty or URLs |
| Validations.CompanyProfileIssues | src/lib/validations.ts:27-35 | accepted exactly with a name of at least 2, a description of at most 1000 and website/logo absent, empty or URLs |
| Validations.JobIssues | src/lib/validations.ts:38-50 | accepted exactly with a title of at least 3, a description of at least 50, non-negative salaries, and job type and level from their enums |
| Validations.InvertedSalaryRangeAccepted | src/lib/validations.ts:43-44 | a minimum salary above the maximum still passes |
| Validations.IsRemote | src/lib/validations.ts:48 | remote defaults to false |
| Validations.LevelOf | src/lib/validations.ts:46 | a level name maps to a matcher level exactly when the schema admits it, and to the level stored under that name |
| Validations.JobTypeOf | src/lib/validations.ts:45 | a job-type name maps to a matcher job type exactly when the schema admits it, and to the job type stored under that name |
| Validations.NamesRoundTrip | src/lib/validations.ts:45-46 | every level and job type is stored under a name the schema accepts, and that name reads back as itself |
| Validations.AcceptedLevelsWithoutBand | src/lib/validations.ts:46 | accepted JUNIOR and EXECUTIVE jobs have minimum 0 and are never in band |
| Validations.ApplicationIssues | src/lib/validations.ts:53-57 | accepted exactly with a cover letter of at most 1000 and a resume link absent, empty or a URL |
| JsInt.DigitRun | src/app/api/profile/jobseeker/route.ts:27-28 | the longest prefix of digits: all digits, and the next character is not one |
| JsInt.ParseInt | src/app/api/profile/jobseeker/route.ts:27-28 | NaN exactly when no digit follows the white space, sign and hexadecimal prefix |
| JsInt.Decimal | src/app/api/profile/jobseeker/route.ts:27-28 | the decimal text of n is non-empty, all digits, and denotes n |
| JsInt.ParseDecimal | src/app/api/profile/jobseeker/route.ts:27-28 | the digits of n read back as n, whatever non-digit text follows |
| JsInt.ParseRender | src/app/api/profile/jobseeker/route.ts:27-28 | `parseInt(String(i)) == i` for every integer |
| JsInt.BlankIsNaN | src/app/candidates/page.tsx:65 | blank text parses to NaN |
| CandidateSearch.MinSalaryParam | src/app/candidates/page.tsx:64-65 | an absent or empty parameter sets no minimum; otherwise `parseInt` of it, NaN when it has no digits |
| CandidateSearch.RenderedMinimum | src/app/candidates/page.tsx:64-65 | a written-out integer is read back as that minimum |
| CandidateSearch.BlankMinimumDropsEveryone | src/app/candidates/page.tsx:64-67 | a parameter of spaces only is truthy, parses to NaN, and drops every candidate |
| JobseekerProfile.StoredSalary | src/app/api/profile/jobseeker/route.ts:27-28 | null exactly for a falsy salary |
| JobseekerProfile.StoredSalaryOfNumber | src/app/api/profile/jobseeker/route.ts:27 | a non-zero number is stored as itself |
| JobseekerProfile.CompletenessIgnoresExtras | src/app/api/profile/jobseeker/route.ts:52-66 | phone, education, links, maximum salary, availability and visibility do not affect completeness |
| JobseekerProfile.ZeroSalaryTextCounts | src/app/api/profile/jobseeker/route.ts:27-63 | the text "0" counts as a given minimum salary, the number 0 does not |
| JobseekerProfile.Normalise | src/app/api/profile/jobseeker/route.ts:16-33 | falsy texts become null and truthy ones are kept; lists are kept as sent; currency is USD; visibility defaults to true only when absent; the complete flag is recomputed from the body |
| JobseekerProfile.SaveProfile | src/app/api/profile/jobseeker/route.ts:5-45 | non-jobseekers get 401; otherwise the record belongs to the session's user and carries the recomputed complete flag |
| JobseekerProfile.ResentSalary | src/app/api/profile/jobseeker/route.ts:27-28 | a stored non-zero salary sent back as a number is stored the same |
| JobseekerProfile.SaveIdempotent | src/app/api/profile/jobseeker/route.ts:16-33 | saving a saved profile again writes the same record |
| Seqs.Filter | src/app/candidates/page.tsx:53 | an order-preserving subsequence keeping exactly the elements that pass |
| Seqs.Dedup | src/components/profile/ProfileForm.tsx:19 | duplicate-free, with the same members as the input |
| Seqs.DedupAppend | src/components/profile/ProfileForm.tsx:19 | de-duplicating a concatenation keeps the first list's distinct elements first, then the unseen ones of the second |
| Seqs.RemoveAt | src/components/profile/SkillsInput.tsx:23 | an in-range index removes exactly that element; any other index changes nothing |
| Strings.Trim | src/components/profile/SkillsInput.tsx:15 | the result has no space at either end and is what remains of the input after removing spaces only |
| Strings.JoinSplit | src/app/candidates/page.tsx:52 | joining the pieces of a split with the separator gives back the string |
| Numbers.RoundHalfUp | src/components/assessments/QuizInterface.tsx:56 | the nearest integer to a/b, with halves rounded up |
| Numbers.RoundMonotone | src/components/assessments/QuizInterface.tsx:56 | rounding preserves order |
| Numbers.CeilDiv | src/app/api/admin/jobs/route.ts:61 | the least integer at least total/limit, for either sign of limit |

## Left out

- Database access (Prisma queries, upserts, counts and seeds): the candidate pool and the stores are input sequences and maps. The window a listing's `skip` and `take` cut out of the selected rows is not modelled; the listing carries the two numbers. What the database does with a negative `skip` or `take` is left out.
- The case sensitivity of `contains` in the admin searches depends on the database. The model uses exact substring search.
- Next.js routing, redirects, middleware, NextAuth sessions and password hashing: a session is an optional (user id, role) pair. The HR-only guard of the talent search (src/app/candidates/page.tsx:16-26) is a redirect and is not modelled.
- React rendering, hooks, `fetch` calls and timers. The resume upload's network call and the quiz's submission request are not modelled; the quiz's local score and verdict are.
- Date parsing: history dates come pre-parsed as (year, month) pairs, or as blank or unparseable. A blank end is read as January 2001, as the fallback date parser does; which other non-ISO texts that parser accepts is not modelled. The time zone is left out: a "YYYY-MM-01" text is read as UTC midnight while the months are taken in local time, which shifts a start month back by one west of UTC. "Now" is a parameter.
- Floating point: years, the skills fraction and the quiz percentage are exact rationals. IEEE rounding near .5 is not modelled, nor is precision lost above 2^53.
- `Strings.ToLower` covers the ASCII letters A–Z only; other scripts' case mappings are not modelled.
- String lengths in the validators count code points, not UTF-16 code units.
- The zod email and URL format checks are predicates passed in, because their patterns belong to the library.
- The admin analytics and stats routes, and the admin matches route. The matches route's paging and "ALL" filter are the same `AdminQuery.List` and `AdminQuery.ExactFilter`.
- The `experience` search parameter of the talent search is declared but never used.
- Work styles and job types are enums here, but the profile save route and the job creation route store any string (or null). For scoring, a string outside the enums acts as one more distinct value. A stored work style outside REMOTE, ONSITE and HYBRID could still equal a search parameter in `CandidateSearch.RemoteStage`; the model cannot express such a profile.
- Query-string page and limit values that are not numbers: the model takes them already parsed, with None for absent or empty.
- A JSON request value of a type the route does not expect (a number where an id is expected, an object where a status is expected) is not modelled. Ids, statuses and actions are optional strings.
- AdminUsers.PatchUser: which values the user table's `banned` and `role` columns accept is assumed (a boolean and any string), since the schema is not part of this model. Any other value kind makes the update fail with 500.
- ExperienceForm.UpdateItem requires an in-range index. The editor only calls it for rendered entries; an out-of-range index would create a sparse array.
- JobseekerProfile.SaveIdempotent holds only for salaries that were empty or parsed to a non-zero number. A stored 0 sent back as the number 0 is falsy and becomes null. A NaN has no JSON form.
- What the database does with a NaN salary: the record carries it as `NotANumber`.
- `parseInt` is modelled with radix 10 and the `0x` prefix. Exponent forms of `String(n)` for very large numbers are left out.
