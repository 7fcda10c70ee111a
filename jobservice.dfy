/** The job service (service/JobService.go): the operations the HTTP
    handlers call, written over an abstract job repository. The repository
    stands for any implementation of the interface the service uses (the
    in-memory store, the SQL store, a test double): it records every call
    and answers each from the calls made so far, the current one included. */
module JobServices {
  import opened Common
  import opened GoStrings
  import opened JobStatuses
  import opened JobPriorities
  import opened History
  import opened Dto
  import opened Jobs

  /** A call the service makes on its repository, with its arguments. */
  datatype RepoCall =
    | StoreCall(job: Job)
    | FindAllCall(safReq: SortAndFilterRequest)
    | FindByIdCall(id: string)
    | UpdateCall(id: string, req: CreateUpdateJobRequest)
    | DeleteByIdCall(id: string)
    | DequeueCall(jobType: string)
    | SetStatusByIdCall(id: string, status: string, message: string)
    | SetHistoryByIdCall(id: string, message: string)
    | DeleteAllJobsCall

  /** A page of jobs and the total count of matching jobs. */
  datatype JobPage = JobPage(jobs: seq<Job>, totalCount: int)

  /** A page of responses and the total count the repository reported. */
  datatype ResponsePage = ResponsePage(responses: seq<JobResponse>, totalCount: int)

  /** The repository interface the service is written against. */
  class JobRepository {
    var calls: seq<RepoCall>
    const storeReply: seq<RepoCall> -> Outcome
    const findAllReply: seq<RepoCall> -> Result<JobPage>
    const findByIdReply: seq<RepoCall> -> Result<Job>
    const updateReply: seq<RepoCall> -> Result<Job>
    const deleteByIdReply: seq<RepoCall> -> Outcome
    const dequeueReply: seq<RepoCall> -> Result<Job>
    const setStatusByIdReply: seq<RepoCall> -> Outcome
    const setHistoryByIdReply: seq<RepoCall> -> Outcome
    const deleteAllJobsReply: seq<RepoCall> -> Outcome

    constructor (storeReply: seq<RepoCall> -> Outcome, findAllReply: seq<RepoCall> -> Result<JobPage>,
                 findByIdReply: seq<RepoCall> -> Result<Job>, updateReply: seq<RepoCall> -> Result<Job>,
                 deleteByIdReply: seq<RepoCall> -> Outcome, dequeueReply: seq<RepoCall> -> Result<Job>,
                 setStatusByIdReply: seq<RepoCall> -> Outcome, setHistoryByIdReply: seq<RepoCall> -> Outcome,
                 deleteAllJobsReply: seq<RepoCall> -> Outcome)
      ensures calls == []
      ensures this.storeReply == storeReply && this.findAllReply == findAllReply
      ensures this.findByIdReply == findByIdReply && this.updateReply == updateReply
      ensures this.deleteByIdReply == deleteByIdReply && this.dequeueReply == dequeueReply
      ensures this.setStatusByIdReply == setStatusByIdReply && this.setHistoryByIdReply == setHistoryByIdReply
      ensures this.deleteAllJobsReply == deleteAllJobsReply
    {
      calls := [];
      this.storeReply := storeReply;
      this.findAllReply := findAllReply;
      this.findByIdReply := findByIdReply;
      this.updateReply := updateReply;
      this.deleteByIdReply := deleteByIdReply;
      this.dequeueReply := dequeueReply;
      this.setStatusByIdReply := setStatusByIdReply;
      this.setHistoryByIdReply := setHistoryByIdReply;
      this.deleteAllJobsReply := deleteAllJobsReply;
    }

    method Store(job: Job) returns (err: Outcome)
      modifies this
      ensures calls == old(calls) + [StoreCall(job)] && err == storeReply(calls)
    {
      calls := calls + [StoreCall(job)];
      err := storeReply(calls);
    }

    method FindAll(safReq: SortAndFilterRequest) returns (r: Result<JobPage>)
      modifies this
      ensures calls == old(calls) + [FindAllCall(safReq)] && r == findAllReply(calls)
    {
      calls := calls + [FindAllCall(safReq)];
      r := findAllReply(calls);
    }

    method FindById(id: string) returns (r: Result<Job>)
      modifies this
      ensures calls == old(calls) + [FindByIdCall(id)] && r == findByIdReply(calls)
    {
      calls := calls + [FindByIdCall(id)];
      r := findByIdReply(calls);
    }

    method Update(id: string, req: CreateUpdateJobRequest) returns (r: Result<Job>)
      modifies this
      ensures calls == old(calls) + [UpdateCall(id, req)] && r == updateReply(calls)
    {
      calls := calls + [UpdateCall(id, req)];
      r := updateReply(calls);
    }

    method DeleteById(id: string) returns (err: Outcome)
      modifies this
      ensures calls == old(calls) + [DeleteByIdCall(id)] && err == deleteByIdReply(calls)
    {
      calls := calls + [DeleteByIdCall(id)];
      err := deleteByIdReply(calls);
    }

    method Dequeue(jobType: string) returns (r: Result<Job>)
      modifies this
      ensures calls == old(calls) + [DequeueCall(jobType)] && r == dequeueReply(calls)
    {
      calls := calls + [DequeueCall(jobType)];
      r := dequeueReply(calls);
    }

    method SetStatusById(id: string, status: string, message: string) returns (err: Outcome)
      modifies this
      ensures calls == old(calls) + [SetStatusByIdCall(id, status, message)] && err == setStatusByIdReply(calls)
    {
      calls := calls + [SetStatusByIdCall(id, status, message)];
      err := setStatusByIdReply(calls);
    }

    method SetHistoryById(id: string, message: string) returns (err: Outcome)
      modifies this
      ensures calls == old(calls) + [SetHistoryByIdCall(id, message)] && err == setHistoryByIdReply(calls)
    {
      calls := calls + [SetHistoryByIdCall(id, message)];
      err := setHistoryByIdReply(calls);
    }

    method DeleteAllJobs() returns (err: Outcome)
      modifies this
      ensures calls == old(calls) + [DeleteAllJobsCall] && err == deleteAllJobsReply(calls)
    {
      calls := calls + [DeleteAllJobsCall];
      err := deleteAllJobsReply(calls);
    }
  }

  /** The error the service reports when a job to change does not exist. */
  function JobMissing(id: string): ApiErr
  {
    NotFoundError("Job with id " + id + " does not exist")
  }

  const StatusChangedPrefix: string := "Job status changed. New status: "

  /** The history message of a status change: the new status, and the
      request's message after "; " unless that message is blank. */
  function StatusMessage(statusReq: UpdateJobStatusRequest): string
  {
    if IsBlank(statusReq.message) then StatusChangedPrefix + statusReq.status
    else StatusChangedPrefix + statusReq.status + "; " + statusReq.message
  }

  /** The status message names the new status right after the fixed
      prefix, and carries the request's message exactly when it is not
      blank, at its end. */
  lemma StatusMessageParts(statusReq: UpdateJobStatusRequest)
    ensures HasPrefix(StatusMessage(statusReq), StatusChangedPrefix + statusReq.status)
    ensures IsBlank(statusReq.message) ==> StatusMessage(statusReq) == StatusChangedPrefix + statusReq.status
    ensures !IsBlank(statusReq.message) ==>
              StatusMessage(statusReq)[|StatusChangedPrefix + statusReq.status|..] == "; " + statusReq.message
  {
    var head := StatusChangedPrefix + statusReq.status;
    if !IsBlank(statusReq.message) {
      var m := head + "; " + statusReq.message;
      assert m == head + ("; " + statusReq.message);
      assert m[..|head|] == head;
    }
  }

  /** The loop of GetAllJobs: the image of each job, in order; the service
      passes the projection to a response. */
  method ToResponses(jobs: seq<Job>, project: Job -> JobResponse) returns (response: seq<JobResponse>)
    ensures |response| == |jobs|
    ensures forall k :: 0 <= k < |jobs| ==> response[k] == project(jobs[k])
  {
    response := [];
    var i := 0;
    while i < |jobs|
      invariant 0 <= i <= |jobs|
      invariant |response| == i
      invariant forall k :: 0 <= k < i ==> response[k] == project(jobs[k])
    {
      response := response + [project(jobs[i])];
      i := i + 1;
    }
  }

  /** A created job's response: the given id, status created, the
      requested rank when in range, and the one "Job created" history line. */
  lemma CreatedResponse(jobReq: CreateUpdateJobRequest, id: JobId, now: Time, nowText: string, format: Time -> string)
    requires JobFromRequest(jobReq, id, now, nowText).Ok?
    ensures var resp := ToJobResponseDto(JobFromRequest(jobReq, id, now, nowText).value, format);
            && resp.id == id && resp.status == StatusCreated && resp.rank == NormalisedRank(jobReq.rank)
            && resp.jobType == jobReq.jobType && resp.history == format(now) + ": Job created\n"
  {
    var j := NewJob(jobReq.name, jobReq.jobType, id, now, nowText).value;
    assert IsNewJob(j, jobReq.name, jobReq.jobType, id, now, nowText);
    JobCreatedLine(now, format);
  }

  /** DefaultJobService: the service over one repository. `format` renders
      history dates in responses, standing for the API's date layout. */
  class DefaultJobService {
    const repo: JobRepository
    const format: Time -> string

    constructor (repository: JobRepository, format: Time -> string)
      ensures repo == repository && this.format == format
    {
      repo := repository;
      this.format := format;
    }

    /** GetAllJobs: the repository's page with every job projected, in
        order, and the count passed through; the repository's error
        otherwise. */
    method GetAllJobs(safReq: SortAndFilterRequest) returns (r: Result<ResponsePage>)
      modifies repo
      ensures repo.calls == old(repo.calls) + [FindAllCall(safReq)]
      ensures repo.findAllReply(repo.calls).Err? ==> r == Err(repo.findAllReply(repo.calls).error)
      ensures repo.findAllReply(repo.calls).Ok? ==>
                var page := repo.findAllReply(repo.calls).value;
                && r.Ok? && r.value.totalCount == page.totalCount && |r.value.responses| == |page.jobs|
                && forall i :: 0 <= i < |page.jobs| ==> r.value.responses[i] == ToJobResponseDto(page.jobs[i], format)
    {
      var found := repo.FindAll(safReq);
      if found.Err? {
        return Err(found.error);
      }
      var response := ToResponses(found.value.jobs, j => ToJobResponseDto(j, format));
      r := Ok(ResponsePage(response, found.value.totalCount));
    }

    /** CreateJob: builds the job from the request and stores it; a request
        without a type is refused before the repository is called, and a
        store error is passed through. The fresh id, the clock reading and
        its local text come from the caller. */
    method CreateJob(jobReq: CreateUpdateJobRequest, id: JobId, now: Time, nowText: string)
      returns (r: Result<JobResponse>)
      modifies repo
      ensures JobFromRequest(jobReq, id, now, nowText).Err? ==>
                r == Err(JobFromRequest(jobReq, id, now, nowText).error) && repo.calls == old(repo.calls)
      ensures JobFromRequest(jobReq, id, now, nowText).Ok? ==>
                var newJob := JobFromRequest(jobReq, id, now, nowText).value;
                && repo.calls == old(repo.calls) + [StoreCall(newJob)]
                && (repo.storeReply(repo.calls).Fail? ==> r == Err(repo.storeReply(repo.calls).error))
                && (repo.storeReply(repo.calls).Pass? ==> r == Ok(ToJobResponseDto(newJob, format)))
    {
      var newJob := NewJobFromJobRequestDto(jobReq, id, now, nowText);
      assert newJob == JobFromRequest(jobReq, id, now, nowText);
      if newJob.Err? {
        return Err(newJob.error);
      }
      var err := repo.Store(newJob.value);
      if err.Fail? {
        return Err(err.error);
      }
      r := Ok(ToJobResponseDto(newJob.value, format));
    }

    /** GetJobById: the projection of the repository's job, or its error. */
    method GetJobById(id: string) returns (r: Result<JobResponse>)
      modifies repo
      ensures repo.calls == old(repo.calls) + [FindByIdCall(id)]
      ensures repo.findByIdReply(repo.calls).Err? ==> r == Err(repo.findByIdReply(repo.calls).error)
      ensures repo.findByIdReply(repo.calls).Ok? ==> r == Ok(ToJobResponseDto(repo.findByIdReply(repo.calls).value, format))
    {
      var job := repo.FindById(id);
      if job.Err? {
        return Err(job.error);
      }
      r := Ok(ToJobResponseDto(job.value, format));
    }

    /** DeleteJobById: NotFound, without a delete, when the job cannot be
        found; otherwise the repository's delete and its error. */
    method DeleteJobById(id: string) returns (err: Outcome)
      modifies repo
      ensures var looked := old(repo.calls) + [FindByIdCall(id)];
              && (repo.findByIdReply(looked).Err? ==> err == Fail(JobMissing(id)) && repo.calls == looked)
              && (repo.findByIdReply(looked).Ok? ==>
                    repo.calls == looked + [DeleteByIdCall(id)] && err == repo.deleteByIdReply(repo.calls))
    {
      var found := GetJobById(id);
      if found.Err? {
        return Fail(JobMissing(id));
      }
      err := repo.DeleteById(id);
    }

    /** Dequeue: the projection of the job the repository hands out, or its
        error. */
    method Dequeue(dqReq: DequeueRequest) returns (r: Result<JobResponse>)
      modifies repo
      ensures repo.calls == old(repo.calls) + [DequeueCall(dqReq.jobType)]
      ensures repo.dequeueReply(repo.calls).Err? ==> r == Err(repo.dequeueReply(repo.calls).error)
      ensures repo.dequeueReply(repo.calls).Ok? ==> r == Ok(ToJobResponseDto(repo.dequeueReply(repo.calls).value, format))
    {
      var job := repo.Dequeue(dqReq.jobType);
      if job.Err? {
        return Err(job.error);
      }
      r := Ok(ToJobResponseDto(job.value, format));
    }

    /** UpdateJob: NotFound, without an update, when the job cannot be
        found; otherwise the projection of the updated job, or the update's
        error. */
    method UpdateJob(id: string, jobReq: CreateUpdateJobRequest) returns (r: Result<JobResponse>)
      modifies repo
      ensures var looked := old(repo.calls) + [FindByIdCall(id)];
              && (repo.findByIdReply(looked).Err? ==> r == Err(JobMissing(id)) && repo.calls == looked)
              && (repo.findByIdReply(looked).Ok? ==> repo.calls == looked + [UpdateCall(id, jobReq)])
              && (repo.findByIdReply(looked).Ok? && repo.updateReply(repo.calls).Err? ==>
                    r == Err(repo.updateReply(repo.calls).error))
              && (repo.findByIdReply(looked).Ok? && repo.updateReply(repo.calls).Ok? ==>
                    r == Ok(ToJobResponseDto(repo.updateReply(repo.calls).value, format)))
    {
      var found := GetJobById(id);
      if found.Err? {
        return Err(JobMissing(id));
      }
      var newJob := repo.Update(id, jobReq);
      if newJob.Err? {
        return Err(newJob.error);
      }
      r := Ok(ToJobResponseDto(newJob.value, format));
    }

    /** SetStatusById: NotFound, without a change, when the job cannot be
        found; otherwise the repository sets the status with the status
        message, and its error is passed through. */
    method SetStatusById(id: string, statusReq: UpdateJobStatusRequest) returns (err: Outcome)
      modifies repo
      ensures var looked := old(repo.calls) + [FindByIdCall(id)];
              && (repo.findByIdReply(looked).Err? ==> err == Fail(JobMissing(id)) && repo.calls == looked)
              && (repo.findByIdReply(looked).Ok? ==>
                    repo.calls == looked + [SetStatusByIdCall(id, statusReq.status, StatusMessage(statusReq))]
                    && err == repo.setStatusByIdReply(repo.calls))
    {
      var message: string;
      var found := GetJobById(id);
      if found.Err? {
        return Fail(JobMissing(id));
      }
      if TrimSpace(statusReq.message) == "" {
        message := StatusChangedPrefix + statusReq.status;
      } else {
        message := StatusChangedPrefix + statusReq.status + "; " + statusReq.message;
      }
      err := repo.SetStatusById(id, statusReq.status, message);
    }

    /** SetHistoryById: NotFound, without a change, when the job cannot be
        found; otherwise the repository appends the message, and its error
        is passed through. */
    method SetHistoryById(id: string, historyReq: UpdateJobHistoryRequest) returns (err: Outcome)
      modifies repo
      ensures var looked := old(repo.calls) + [FindByIdCall(id)];
              && (repo.findByIdReply(looked).Err? ==> err == Fail(JobMissing(id)) && repo.calls == looked)
              && (repo.findByIdReply(looked).Ok? ==>
                    repo.calls == looked + [SetHistoryByIdCall(id, historyReq.message)]
                    && err == repo.setHistoryByIdReply(repo.calls))
    {
      var found := GetJobById(id);
      if found.Err? {
        return Fail(JobMissing(id));
      }
      err := repo.SetHistoryById(id, historyReq.message);
    }

    /** DeleteAllJobs: the repository's result. */
    method DeleteAllJobs() returns (err: Outcome)
      modifies repo
      ensures repo.calls == old(repo.calls) + [DeleteAllJobsCall]
      ensures err == repo.deleteAllJobsReply(repo.calls)
    {
      err := repo.DeleteAllJobs();
    }
  }
}
