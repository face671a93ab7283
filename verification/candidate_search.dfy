/** The talent search an HR user runs: the pool of at most 50 active,
    complete profiles, narrowed in turn by the skills, work-style and
    minimum-salary parameters of the search page. Each stage keeps a
    subsequence of its input, and an absent parameter keeps everything. */
module CandidateSearch {
  import opened Wrappers
  import opened Seqs
  import Strings
  import Truthy
  import JsInt
  import opened Matching

  const PoolLimit: nat := 50

  /** The `minSalary` parameter as the filter uses it: absent or empty,
      present but not a number (`parseInt` gives NaN), or a number. */
  datatype SalaryParam = NoMinimum | NotANumber | Minimum(amount: int)

  /** The query parameters of the search page, as text. */
  datatype SearchParams = SearchParams(skills: Option<string>, remote: Option<string>, minSalary: Option<string>)

  /** The stored text of a work style. */
  function WorkStyleName(w: WorkStyle): string {
    match w
    case Remote => "REMOTE"
    case Onsite => "ONSITE"
    case Hybrid => "HYBRID"
  }

  /** The candidates the page loads: active and complete profiles, the first
      50 in the order the store returns them (most recently updated first). */
  function LoadPool(rows: seq<Profile>): (r: seq<Profile>)
    ensures |r| <= PoolLimit
    ensures forall i :: 0 <= i < |r| ==> r[i].isActive && r[i].profileComplete
    ensures IsSubsequence(r, rows)
    ensures |Filter(Eligible(), rows)| <= PoolLimit ==> r == Filter(Eligible(), rows)
    ensures |Filter(Eligible(), rows)| > PoolLimit ==> r == Filter(Eligible(), rows)[..PoolLimit]
  {
    var eligible := Filter(Eligible(), rows);
    if |eligible| <= PoolLimit then eligible
    else
      PrefixIsSubsequence(eligible, PoolLimit);
      SubsequenceTrans(eligible[..PoolLimit], eligible, rows);
      eligible[..PoolLimit]
  }

  /** The search terms: the lower-cased parameter split on commas (each
      term is trimmed only when compared). */
  function SearchTerms(param: string): seq<string> {
    Strings.Split(Strings.ToLower(param), ',')
  }

  /** Some trimmed term equals one of the candidate's lower-cased skills
      (which are not trimmed). */
  predicate SkillHit(terms: seq<string>, c: Profile) {
    exists t :: t in terms && Strings.Trim(t) in LowerAll(c.skills)
  }

  function HitsAny(terms: seq<string>): Profile -> bool {
    (c: Profile) => SkillHit(terms, c)
  }

  function SkillsStage(param: Option<string>, cs: seq<Profile>): (r: seq<Profile>)
    ensures !Truthy.Text(param) ==> r == cs
    ensures IsSubsequence(r, cs)
    ensures Truthy.Text(param) ==> forall c :: c in r <==> c in cs && SkillHit(SearchTerms(param.value), c)
  {
    if Truthy.Text(param) then Filter(HitsAny(SearchTerms(param.value)), cs)
    else
      SubsequenceRefl(cs);
      cs
  }

  /** A candidate without stored skills never survives a skills search. */
  lemma NoSkillsNeverFound(param: string, cs: seq<Profile>, c: Profile)
    requires param != "" && c.skills == []
    ensures c !in SkillsStage(Some(param), cs)
  {
  }

  /** The parameter is lower-cased first, so its case does not matter. */
  lemma SkillsStageIgnoresCase(param: string, cs: seq<Profile>)
    ensures SkillsStage(Some(Strings.ToLower(param)), cs) == SkillsStage(Some(param), cs)
  {
    Strings.ToLowerIdempotent(param);
  }

  function SameStyle(param: string): Profile -> bool {
    (c: Profile) => c.remote.Some? && WorkStyleName(c.remote.value) == param
  }

  /** The work-style filter: exact equality with the parameter. */
  function RemoteStage(param: Option<string>, cs: seq<Profile>): (r: seq<Profile>)
    ensures !Truthy.Text(param) ==> r == cs
    ensures IsSubsequence(r, cs)
    ensures Truthy.Text(param) ==> forall c :: c in r <==>
      c in cs && c.remote.Some? && WorkStyleName(c.remote.value) == param.value
  {
    if Truthy.Text(param) then Filter(SameStyle(param.value), cs)
    else
      SubsequenceRefl(cs);
      cs
  }

  /** Unlike the matcher, the search gives HYBRID no leniency. */
  lemma RemoteStageHasNoHybridLeniency(c: Profile)
    requires c.remote == Some(Hybrid)
    ensures RemoteStage(Some("REMOTE"), [c]) == []
  {
    assert [c][1..] == [];
  }

  function EarnsAtLeast(amount: int): Profile -> bool {
    (c: Profile) => Truthy.Number(c.maxSalary) && c.maxSalary.value >= amount
  }

  /** The minimum-salary filter: a truthy maximum salary at least the
      parsed minimum; NaN compares false with everything. */
  function SalaryStage(param: SalaryParam, cs: seq<Profile>): (r: seq<Profile>)
    ensures param.NoMinimum? ==> r == cs
    ensures param.NotANumber? ==> r == []
    ensures IsSubsequence(r, cs)
    ensures param.Minimum? ==> forall c :: c in r <==>
      c in cs && Truthy.Number(c.maxSalary) && c.maxSalary.value >= param.amount
  {
    match param
    case NoMinimum =>
      SubsequenceRefl(cs);
      cs
    case NotANumber => []
    case Minimum(amount) => Filter(EarnsAtLeast(amount), cs)
  }

  /** The minimum salary the filter compares with: only a truthy parameter
      is read, through `parseInt`. */
  function MinSalaryParam(text: Option<string>): (r: SalaryParam)
    ensures r.NoMinimum? <==> !Truthy.Text(text)
    ensures r.NotANumber? <==> Truthy.Text(text) && JsInt.ParseInt(text.value).None?
    ensures r.Minimum? ==> Truthy.Text(text) && JsInt.ParseInt(text.value) == Some(r.amount)
  {
    if !Truthy.Text(text) then NoMinimum
    else
      match JsInt.ParseInt(text.value)
      case None => NotANumber
      case Some(n) => Minimum(n)
  }

  /** A number written out in the parameter is the minimum the filter uses. */
  lemma RenderedMinimum(i: int)
    ensures MinSalaryParam(Some(JsInt.Render(i))) == Minimum(i)
  {
    JsInt.ParseRender(i, "");
    assert JsInt.Render(i) + "" == JsInt.Render(i);
  }

  /** A parameter of spaces only is truthy but parses to NaN, so nobody
      passes the salary filter. */
  lemma BlankMinimumDropsEveryone(s: string, cs: seq<Profile>)
    requires s != [] && forall i :: 0 <= i < |s| ==> Strings.IsSpace(s[i])
    ensures MinSalaryParam(Some(s)) == NotANumber
    ensures SalaryStage(MinSalaryParam(Some(s)), cs) == []
  {
    JsInt.BlankIsNaN(s);
  }

  /** The search page's result: the pool narrowed by skills, then work
      style, then minimum salary. */
  function Search(params: SearchParams, rows: seq<Profile>): (r: seq<Profile>)
    ensures |r| <= PoolLimit
    ensures IsSubsequence(r, rows)
    ensures forall c :: c in r ==> c.isActive && c.profileComplete
    ensures params == SearchParams(None, None, None) ==> r == LoadPool(rows)
  {
    var pool := LoadPool(rows);
    var bySkills := SkillsStage(params.skills, pool);
    var byStyle := RemoteStage(params.remote, bySkills);
    var r := SalaryStage(MinSalaryParam(params.minSalary), byStyle);
    SubsequenceTrans(r, byStyle, bySkills);
    SubsequenceTrans(r, bySkills, pool);
    SubsequenceTrans(r, pool, rows);
    SubsequenceMembers(r, pool);
    SubsequenceLength(r, pool);
    r
  }
}
