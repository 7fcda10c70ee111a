/** The in-memory job store (repositories/JobRepositoryMem.go): a map from a
    job's id to the job. The store's mutex is left out, so every operation is
    sequential. Go's map iteration order is unspecified; where an operation
    returns a list in that order, a ghost `order` reports the keys visited. */
module JobRepositoryMemory {
  import opened Common
  import opened GoStrings
  import opened JobStatuses
  import opened Dto
  import opened Jobs
  import opened RepositoryHelper

  /** Every job is stored under its own id. */
  ghost predicate KeyedById(jList: map<string, Job>) {
    forall id :: id in jList ==> jList[id].id == id
  }

  /** `jobs` holds the jobs stored under the keys of `order`, in that order,
      and no key occurs twice in `order`. */
  ghost predicate Enumerates(jobs: seq<Job>, order: seq<string>, jList: map<string, Job>) {
    && |jobs| == |order|
    && (forall i :: 0 <= i < |order| ==> order[i] in jList && jobs[i] == jList[order[i]])
    && (forall i, j :: 0 <= i < j < |order| ==> order[i] != order[j])
  }

  /** `jobs` lists, once each, exactly the stored jobs whose status is `status`. */
  ghost predicate ListsWithStatus(jobs: seq<Job>, order: seq<string>, jList: map<string, Job>, status: string) {
    && Enumerates(jobs, order, jList)
    && (forall k :: k in jList ==> (k in order <==> jList[k].status == status))
  }

  /** The error FindById reports for an id that is not stored. */
  function MissingJobError(jList: map<string, Job>, id: string): ApiErr
  {
    if |jList| == 0 then NotFoundError("No jobs in joblist")
    else NotFoundError("No job with id " + id + " in joblist")
  }

  /** A job Dequeue may hand out: of the requested type, still `created`, and
      created before `bound`. */
  ghost predicate Dequeueable(j: Job, jobType: string, bound: Time) {
    Matches(j, jobType) && j.createdAt < bound
  }

  /** A job of the requested type that is still `created`. */
  predicate Matches(j: Job, jobType: string) {
    j.jobType == jobType && j.status == StatusCreated
  }

  /** Appending one more stored, not yet listed key keeps an enumeration. */
  lemma EnumeratesSnoc(jobs: seq<Job>, order: seq<string>, jList: map<string, Job>, k: string)
    requires Enumerates(jobs, order, jList) && k in jList && k !in order
    ensures Enumerates(jobs + [jList[k]], order + [k], jList)
  {
  }

  /** convertMapToSlice: every stored job exactly once. */
  method ConvertMapToSlice(jList: map<string, Job>) returns (slice: seq<Job>, ghost order: seq<string>)
    ensures Enumerates(slice, order, jList)
    ensures forall k :: k in jList ==> k in order
  {
    slice := [];
    order := [];
    var remaining := jList.Keys;
    while remaining != {}
      invariant forall k :: k in jList <==> k in remaining || k in order
      invariant forall k :: k in remaining ==> k !in order
      invariant Enumerates(slice, order, jList)
      decreases |remaining|
    {
      var k := Pick(remaining);
      EnumeratesSnoc(slice, order, jList, k);
      slice := slice + [jList[k]];
      order := order + [k];
      remaining := remaining - {k};
    }
  }

  /** filterByStatus: the stored jobs whose status equals `status` exactly
      (no trimming or case folding), or NotFound when there is none. */
  method FilterByStatus(jList: map<string, Job>, status: string) returns (r: Result<seq<Job>>, ghost order: seq<string>)
    ensures r.Ok? <==> exists k :: k in jList && jList[k].status == status
    ensures r.Ok? ==> ListsWithStatus(r.value, order, jList, status)
    ensures r.Err? ==> r.error == NotFoundError("No jobs with status " + status + " in joblist")
  {
    var filtered: seq<Job> := [];
    order := [];
    var remaining := jList.Keys;
    while remaining != {}
      invariant forall k :: k in remaining ==> k in jList && k !in order
      invariant forall k :: k in jList && k !in remaining ==> (k in order <==> jList[k].status == status)
      invariant Enumerates(filtered, order, jList)
      decreases |remaining|
    {
      var k := Pick(remaining);
      if jList[k].status == status {
        EnumeratesSnoc(filtered, order, jList, k);
        filtered := filtered + [jList[k]];
        order := order + [k];
      }
      remaining := remaining - {k};
    }
    if |filtered| == 0 {
      assert forall k :: k in jList ==> k !in order;
      r := Err(NotFoundError("No jobs with status " + status + " in joblist"));
    } else {
      assert order[0] in jList && jList[order[0]].status == status;
      r := Ok(filtered);
    }
  }

  /** filterById: a stored job whose id is `id`, or NotFound. When every job
      is stored under its id, that is the job stored under `id`. */
  method FilterById(jList: map<string, Job>, id: string) returns (r: Result<Job>)
    ensures r.Ok? <==> exists k :: k in jList && jList[k].id == id
    ensures r.Ok? ==> r.value.id == id && r.value in jList.Values
    ensures r.Err? ==> r.error == NotFoundError("No job with id " + id + " in joblist")
    ensures KeyedById(jList) ==> (r.Ok? <==> id in jList) && (r.Ok? ==> r.value == jList[id])
  {
    var remaining := jList.Keys;
    while remaining != {}
      invariant forall k :: k in remaining ==> k in jList
      invariant forall k :: k in jList && k !in remaining ==> jList[k].id != id
      decreases |remaining|
    {
      var k := Pick(remaining);
      if jList[k].id == id {
        return Ok(jList[k]);
      }
      remaining := remaining - {k};
    }
    return Err(NotFoundError("No job with id " + id + " in joblist"));
  }

  class JobRepositoryMem {
    var jobList: map<string, Job>

    /** The store's invariant: every job sits under its own id. */
    ghost predicate Valid()
      reads this
    {
      KeyedById(jobList)
    }

    /** NewJobRepositoryMem: an empty store. */
    constructor ()
      ensures Valid() && jobList == map[]
    {
      jobList := map[];
    }

    /** FindAll: NotFound for an empty store; every stored job for a blank
        status; otherwise the jobs with exactly that status. */
    method FindAll(status: string) returns (r: Result<seq<Job>>, ghost order: seq<string>)
      requires Valid()
      ensures jobList == map[] ==> r == Err(NotFoundError("No jobs in job list"))
      ensures jobList != map[] && IsBlank(status) ==>
                r.Ok? && Enumerates(r.value, order, jobList) && forall k :: k in jobList ==> k in order
      ensures jobList != map[] && !IsBlank(status) ==>
                && (r.Ok? <==> exists k :: k in jobList && jobList[k].status == status)
                && (r.Ok? ==> ListsWithStatus(r.value, order, jobList, status))
                && (r.Err? ==> r.error == NotFoundError("No jobs with status " + status + " in joblist"))
    {
      if |jobList| == 0 {
        return Err(NotFoundError("No jobs in job list")), [];
      }
      if IsBlank(status) {
        var slice;
        slice, order := ConvertMapToSlice(jobList);
        r := Ok(slice);
      } else {
        r, order := FilterByStatus(jobList, status);
      }
    }

    /** FindById: the job stored under `id`, or NotFound; the store is
        left as it is. */
    method FindById(id: string) returns (r: Result<Job>)
      requires Valid()
      ensures r.Ok? <==> id in jobList
      ensures r.Ok? ==> r.value == jobList[id]
      ensures r.Err? ==> r.error == MissingJobError(jobList, id)
    {
      if |jobList| == 0 {
        return Err(NotFoundError("No jobs in joblist"));
      }
      r := FilterById(jobList, id);
    }

    /** Store: puts the job, stamped as modified now, under its id,
        replacing whatever was stored there. */
    method Store(job: Job, now: Time)
      requires Valid()
      modifies this
      ensures Valid()
      ensures jobList == old(jobList)[job.id := job.(modifiedAt := now)]
    {
      var stamped := job.(modifiedAt := now);
      jobList := jobList[job.id := stamped];
    }

    /** DeleteById: removes the job stored under `id`; NotFound, and no
        change, when there is none. */
    method DeleteById(id: string) returns (err: Outcome)
      requires Valid()
      modifies this
      ensures Valid()
      ensures id in old(jobList) ==> err == Pass && jobList == old(jobList) - {id}
      ensures id !in old(jobList) ==> err == Fail(MissingJobError(old(jobList), id)) && jobList == old(jobList)
    {
      if |jobList| == 0 {
        return Fail(NotFoundError("No jobs in joblist"));
      }
      var found := FilterById(jobList, id);
      if found.Err? {
        return Fail(found.error);
      }
      jobList := jobList - {id};
      err := Pass;
    }

    /** Dequeue: a job of the given type, still `created`, created before
        `now` plus one second and no later than any other such job. The
        store is not changed. */
    method Dequeue(jobType: string, now: Time) returns (r: Result<Job>)
      requires Valid()
      ensures jobList == map[] ==> r == Err(NotFoundError("No jobs in joblist"))
      ensures jobList != map[] ==> (r.Ok? <==> exists k :: k in jobList && Dequeueable(jobList[k], jobType, now + Second))
      ensures jobList != map[] && r.Err? ==> r.error == NotFoundError("No more jobs to dequeue")
      ensures r.Ok? ==> r.value.id in jobList && jobList[r.value.id] == r.value
      ensures r.Ok? ==> Dequeueable(r.value, jobType, now + Second)
      ensures r.Ok? ==> forall k :: k in jobList && Dequeueable(jobList[k], jobType, now + Second) ==>
                          r.value.createdAt <= jobList[k].createdAt
    {
      var nextJobId: string := "";
      var nextJobDate: Time := now + Second;
      if |jobList| == 0 {
        return Err(NotFoundError("No jobs in joblist"));
      }
      var remaining := jobList.Keys;
      while remaining != {}
        invariant forall k :: k in remaining ==> k in jobList
        invariant nextJobDate <= now + Second
        invariant forall k :: k in jobList && k !in remaining && Matches(jobList[k], jobType) ==>
                    nextJobDate <= jobList[k].createdAt
        invariant nextJobId == "" ==> nextJobDate == now + Second
        invariant nextJobId != "" ==>
                    nextJobId in jobList && Dequeueable(jobList[nextJobId], jobType, now + Second)
                    && jobList[nextJobId].createdAt == nextJobDate
        decreases |remaining|
      {
        var k := Pick(remaining);
        var job := jobList[k];
        if Matches(job, jobType) {
          if job.createdAt < nextJobDate {
            nextJobDate := job.createdAt;
            nextJobId := job.id;
          }
        }
        remaining := remaining - {k};
      }
      if nextJobId == "" {
        return Err(NotFoundError("No more jobs to dequeue"));
      }
      var found := FilterById(jobList, nextJobId);
      assert found.Ok?;
      r := Ok(found.value);
    }

    /** SetStatusById: the job stored under `id` gets the new status and one
        history entry (message, dated now) and is stored again; the
        FindById error, and no change, when there is no such job. */
    method SetStatusById(id: string, newStatus: string, message: string, now: Time) returns (err: Outcome)
      requires Valid()
      modifies this
      ensures Valid()
      ensures id in old(jobList) ==>
                err == Pass && jobList == old(jobList)[id := old(jobList)[id].(status := newStatus).AddHistory(now, message).(modifiedAt := now)]
      ensures id !in old(jobList) ==> err == Fail(MissingJobError(old(jobList), id)) && jobList == old(jobList)
    {
      var found := FindById(id);
      if found.Err? {
        return Fail(found.error);
      }
      var job := found.value.(status := newStatus);
      job := job.AddHistory(now, message);
      Store(job, now);
      err := Pass;
    }

    /** SetHistoryById: the job stored under `id` gets one history entry
        (message, dated now) and is stored again; the FindById error, and no
        change, when there is no such job. */
    method SetHistoryById(id: string, message: string, now: Time) returns (err: Outcome)
      requires Valid()
      modifies this
      ensures Valid()
      ensures id in old(jobList) ==>
                err == Pass && jobList == old(jobList)[id := old(jobList)[id].AddHistory(now, message).(modifiedAt := now)]
      ensures id !in old(jobList) ==> err == Fail(MissingJobError(old(jobList), id)) && jobList == old(jobList)
    {
      var found := FindById(id);
      if found.Err? {
        return Fail(found.error);
      }
      var job := found.value.AddHistory(now, message);
      Store(job, now);
      err := Pass;
    }

    /** Update: merges the request into the job stored under `id`, stores
        the merged job and returns it; the FindById error, and no change,
        when there is no such job. */
    method Update(id: string, jobUpdReq: CreateUpdateJobRequest, now: Time)
      returns (r: Result<Job>, ghost order: seq<Field>)
      requires Valid()
      modifies this
      ensures Valid()
      ensures id !in old(jobList) ==> r == Err(MissingJobError(old(jobList), id)) && jobList == old(jobList)
      ensures id in old(jobList) ==> r.Ok? && jobList == old(jobList)[id := r.value]
      ensures id in old(jobList) ==> r.value.(history := old(jobList)[id].history) == Merged(old(jobList)[id], jobUpdReq, now)
      ensures id in old(jobList) ==> IsOrdering(order, Changes(jobUpdReq))
      ensures id in old(jobList) && Changes(jobUpdReq) == map[] ==> r.value.history == old(jobList)[id].history
      ensures id in old(jobList) && Changes(jobUpdReq) != map[] ==>
                r.value.history == old(jobList)[id].history.Add(now, AuditMessage(order, Changes(jobUpdReq)))
    {
      var found := FindById(id);
      if found.Err? {
        return Err(found.error), [];
      }
      var updJob;
      updJob, order := MergeJobs(found.value, jobUpdReq, now);
      assert updJob.(modifiedAt := now) == updJob;
      Store(updJob, now);
      r := Ok(updJob);
    }

    /** DeleteAllJobs: empties the store; it always succeeds. */
    method DeleteAllJobs() returns (err: Outcome)
      requires Valid()
      modifies this
      ensures Valid()
      ensures err == Pass && jobList == map[]
    {
      var keys := jobList.Keys;
      while keys != {}
        invariant forall k :: k in jobList <==> k in keys
        invariant Valid()
        decreases |keys|
      {
        var key := Pick(keys);
        jobList := jobList - {key};
        keys := keys - {key};
      }
      EmptyMapWithoutKeys(jobList);
      err := Pass;
    }
  }
}
