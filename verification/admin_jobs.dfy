/** The admin job-moderation route: listing jobs with a status filter and a
    title/company search, and forcing a job into one of the moderation
    statuses. */
module AdminJobs {
  import opened Wrappers
  import opened Http
  import opened AdminQuery
  import Truthy
  import Strings

  datatype JobRow = JobRow(id: string, title: string, companyName: string, status: string)

  datatype JobsQuery = JobsQuery(page: Option<int>, limit: Option<int>,
                                 status: Option<string>, search: Option<string>)

  /** The where-clause: the status filter, then a search on title or
      company name. */
  predicate Selected(status: Option<string>, search: Option<string>, j: JobRow) {
    Passes(status, j.status)
    && (search.None? || Strings.Contains(j.title, search.value) || Strings.Contains(j.companyName, search.value))
  }

  function Selector(q: JobsQuery): JobRow -> bool {
    (j: JobRow) => Selected(ExactFilter(q.status), Truthy.TextOrNull(q.search), j)
  }

  /** GET: admins only; lists the jobs the query selects. */
  function GetJobs(session: Option<Session>, q: JobsQuery, rows: seq<JobRow>): (r: Reply<Listing<JobRow>>)
    ensures !HasRole(session, "ADMIN") ==> r == Error(401, "Unauthorized")
    ensures HasRole(session, "ADMIN") ==> r.Ok? && r.body.total == |r.body.selected|
    ensures r.Ok? ==> forall i :: 0 <= i < |r.body.selected| ==>
      var j := r.body.selected[i];
      j in rows
      && (!Truthy.Text(q.status) || q.status.value == "ALL" || j.status == q.status.value)
      && (!Truthy.Text(q.search) || Strings.Contains(j.title, q.search.value) || Strings.Contains(j.companyName, q.search.value))
  {
    if !HasRole(session, "ADMIN") then Error(401, "Unauthorized")
    else Ok(List(Selector(q), rows, q.page, q.limit))
  }

  /** Status "ALL" or none, and no search text, select every job. */
  lemma NoFilterListsAll(session: Option<Session>, page: Option<int>, limit: Option<int>, rows: seq<JobRow>)
    requires HasRole(session, "ADMIN")
    ensures GetJobs(session, JobsQuery(page, limit, Some("ALL"), Some("")), rows).body.selected == rows
    ensures GetJobs(session, JobsQuery(page, limit, None, None), rows).body.selected == rows
  {
    Seqs.FilterAll(Selector(JobsQuery(page, limit, Some("ALL"), Some(""))), rows);
    Seqs.FilterAll(Selector(JobsQuery(page, limit, None, None)), rows);
  }

  /** Every job the query admits is listed. */
  lemma ListsEverySelectedJob(session: Option<Session>, q: JobsQuery, rows: seq<JobRow>, i: nat)
    requires HasRole(session, "ADMIN") && i < |rows|
    requires !Truthy.Text(q.status) || q.status.value == "ALL" || rows[i].status == q.status.value
    requires !Truthy.Text(q.search) || Strings.Contains(rows[i].title, q.search.value)
             || Strings.Contains(rows[i].companyName, q.search.value)
    ensures rows[i] in GetJobs(session, q, rows).body.selected
  {
    assert Selector(q)(rows[i]);
  }

  /** The moderation statuses an admin may set. */
  const AllowedStatuses: seq<string> := ["DRAFT", "ACTIVE", "CLOSED", "REJECTED"]

  /** PATCH: admins only; both fields required; the status must be a
      moderation status; the job must exist (the update throws otherwise and
      the handler answers 500). The current status plays no part. */
  function PatchJob(session: Option<Session>, jobId: Option<string>, status: Option<string>,
                    store: map<string, JobRow>): (r: Patched<JobRow, JobRow>)
    ensures !HasRole(session, "ADMIN") ==> r == Patched(Error(401, "Unauthorized"), store)
    ensures HasRole(session, "ADMIN") && (!Truthy.Text(jobId) || !Truthy.Text(status)) ==>
      r == Patched(Error(400, "Missing required fields"), store)
    ensures HasRole(session, "ADMIN") && Truthy.Text(jobId) && Truthy.Text(status) && status.value !in AllowedStatuses ==>
      r == Patched(Error(400, "Invalid status"), store)
    ensures HasRole(session, "ADMIN") && Truthy.Text(jobId) && Truthy.Text(status) && status.value in AllowedStatuses
            && jobId.value !in store ==>
      r == Patched(Error(500, "Internal Server Error"), store)
    ensures r.reply.Ok? <==>
      (HasRole(session, "ADMIN") && Truthy.Text(jobId) && Truthy.Text(status)
       && status.value in AllowedStatuses && jobId.value in store)
    ensures !r.reply.Ok? ==> r.store == store
    ensures r.reply.Ok? ==>
      && r.store.Keys == store.Keys
      && r.store[jobId.value] == store[jobId.value].(status := status.value)
      && r.reply.body == r.store[jobId.value]
      && (forall k :: k in store && k != jobId.value ==> r.store[k] == store[k])
  {
    if !HasRole(session, "ADMIN") then Patched(Error(401, "Unauthorized"), store)
    else if !Truthy.Text(jobId) || !Truthy.Text(status) then Patched(Error(400, "Missing required fields"), store)
    else if status.value !in AllowedStatuses then Patched(Error(400, "Invalid status"), store)
    else if jobId.value !in store then Patched(Error(500, "Internal Server Error"), store)
    else
      var updated := store[jobId.value].(status := status.value);
      Patched(Ok(updated), store[jobId.value := updated])
  }

  /** A forced transition: whatever status the job held, the same request
      leaves the same store. */
  lemma PatchIgnoresCurrentStatus(session: Option<Session>, jobId: string, status: Option<string>,
                                  store: map<string, JobRow>, current: string)
    requires jobId in store
    ensures PatchJob(session, Some(jobId), status, store).reply.Ok? ==>
      PatchJob(session, Some(jobId), status, store[jobId := store[jobId].(status := current)]).store
      == PatchJob(session, Some(jobId), status, store).store
  {
  }

  /** Repeating a successful request changes nothing further. */
  lemma PatchIdempotent(session: Option<Session>, jobId: Option<string>, status: Option<string>,
                        store: map<string, JobRow>)
    requires PatchJob(session, jobId, status, store).reply.Ok?
    ensures PatchJob(session, jobId, status, PatchJob(session, jobId, status, store).store).store
         == PatchJob(session, jobId, status, store).store
  {
  }
}
