/** The job record and its construction and projection (domain/job.go).
    The id generator and the clock are outside the model: the caller passes
    the fresh id, the current instant and that instant's local text. */
module Jobs {
  import opened Common
  import opened GoStrings
  import opened JobStatuses
  import opened JobPriorities
  import opened History
  import opened Dto

  /** A job id: the string form of a ksuid, which is never empty. */
  type JobId = s: string | s != "" witness "0"

  datatype Job = Job(
    id: JobId,
    correlationId: string,
    name: string,
    createdAt: Time,
    createdBy: string,
    modifiedAt: Time,
    modifiedBy: string,
    status: string,
    source: string,
    destination: string,
    jobType: string,
    subType: string,
    action: string,
    actionDetails: string,
    progress: Int32,
    history: HistoryList,
    extraData: string,
    priority: PriorityIndex,
    rank: Int32)
  {
    /** Appends msg, dated now, to the job's history; nothing else changes. */
    function AddHistory(now: Time, msg: string): (j: Job)
      ensures j.history.entries == history.entries + [HistoryItem(now, msg)]
      ensures j.(history := history) == this
    {
      this.(history := history.Add(now, msg))
    }
  }

  /** The name of a new job: the given one unless it is blank, else
      "new job @ " and the local time text. */
  function CreateJobName(name: string, nowText: string): (jobName: string)
    ensures !IsBlank(name) ==> jobName == name
    ensures IsBlank(name) ==> HasPrefix(jobName, "new job @ ") && jobName[|"new job @ "|..] == nowText
    ensures !IsBlank(jobName)
  {
    if IsBlank(name) then
      var generated := "new job @ " + nowText;
      NonSpaceStartNotBlank(generated);
      generated
    else name
  }

  /** What NewJob promises about a job it builds. */
  ghost predicate IsNewJob(j: Job, jobName: string, jobType: string, id: JobId, now: Time, nowText: string)
  {
    && j.id == id && j.name == CreateJobName(jobName, nowText) && j.jobType == jobType
    && j.status == StatusCreated && j.priority == DefaultPriority && j.rank == 0 && j.progress == 0
    && j.createdAt == now && j.modifiedAt == now
    && j.correlationId == "" && j.createdBy == "" && j.modifiedBy == "" && j.source == ""
    && j.destination == "" && j.subType == "" && j.action == "" && j.actionDetails == "" && j.extraData == ""
    && j.history.entries == [HistoryItem(now, "Job created")]
  }

  /** A new job of the given type, or BadRequest when the type is blank. */
  function NewJob(jobName: string, jobType: string, id: JobId, now: Time, nowText: string): (r: Result<Job>)
    ensures r.Err? <==> IsBlank(jobType)
    ensures r.Err? ==> r.error == BadRequestError("Job must have a type")
    ensures r.Ok? ==> IsNewJob(r.value, jobName, jobType, id, now, nowText)
  {
    if IsBlank(jobType) then Err(BadRequestError("Job must have a type"))
    else
      var history := HistoryList([]).Add(now, "Job created");
      Ok(Job(id, "", CreateJobName(jobName, nowText), now, "", now, "", StatusCreated, "", "", jobType,
             "", "", "", 0, history, "", DefaultPriority, 0))
  }

  /** The rank a request may set on a new job: 0 <= rank < MaxInt32, else 0. */
  function NormalisedRank(rank: Int32): (r: Int32)
    ensures 0 <= r < MaxInt32
    ensures r == rank <==> 0 <= rank < MaxInt32
  {
    if 0 <= rank && rank < MaxInt32 then rank else 0
  }

  /** The priority a request sets on a new job: its table index, medium when
      none is given. */
  function RequestedPriority(priority: string): (p: PriorityIndex)
    ensures priority == "" ==> p == DefaultPriority
    ensures priority != "" && IsValidPriority(priority) ==> PriorityName(p) == ToLower(priority)
    ensures priority != "" && !IsValidPriority(priority) ==> p == 0
  {
    if priority == "" then DefaultPriority
    else
      NamesDistinct();
      PriorityIndexOf(priority)
  }

  /** The job a create request yields: the NewJob of its name and type with
      the request's descriptive fields, priority and rank. */
  function JobFromRequest(jobReq: CreateUpdateJobRequest, id: JobId, now: Time, nowText: string): Result<Job>
  {
    var created := NewJob(jobReq.name, jobReq.jobType, id, now, nowText);
    if created.Err? then Err(created.error)
    else Ok(created.value.(correlationId := jobReq.correlationId, source := jobReq.source,
                           destination := jobReq.destination, subType := jobReq.subType,
                           action := jobReq.action, actionDetails := jobReq.actionDetails,
                           extraData := jobReq.extraData, priority := RequestedPriority(jobReq.priority),
                           rank := NormalisedRank(jobReq.rank)))
  }

  /** A new job built from a create request: NewJob from the request's name
      and type, then the descriptive fields, the priority and the rank set
      from the request one by one. */
  method NewJobFromJobRequestDto(jobReq: CreateUpdateJobRequest, id: JobId, now: Time, nowText: string)
    returns (r: Result<Job>)
    ensures r.Err? <==> NewJob(jobReq.name, jobReq.jobType, id, now, nowText).Err?
    ensures r.Err? ==> r.error == BadRequestError("Job must have a type")
    ensures r.Ok? ==> r.value == NewJob(jobReq.name, jobReq.jobType, id, now, nowText).value.(
                        correlationId := jobReq.correlationId, source := jobReq.source,
                        destination := jobReq.destination, subType := jobReq.subType,
                        action := jobReq.action, actionDetails := jobReq.actionDetails,
                        extraData := jobReq.extraData, priority := RequestedPriority(jobReq.priority),
                        rank := NormalisedRank(jobReq.rank))
  {
    var created := NewJob(jobReq.name, jobReq.jobType, id, now, nowText);
    if created.Err? {
      return Err(created.error);
    }
    var newJob := created.value;
    newJob := newJob.(correlationId := jobReq.correlationId, source := jobReq.source,
                      destination := jobReq.destination, subType := jobReq.subType,
                      action := jobReq.action, actionDetails := jobReq.actionDetails,
                      extraData := jobReq.extraData);
    var priority := newJob.priority;
    if jobReq.priority != "" {
      priority := PriorityIndexOf(jobReq.priority);
    }
    var rank: Int32 := 0;
    if 0 <= jobReq.rank && jobReq.rank < MaxInt32 {
      rank := jobReq.rank;
    }
    assert priority == RequestedPriority(jobReq.priority) && rank == NormalisedRank(jobReq.rank);
    newJob := newJob.(priority := priority, rank := rank);
    return Ok(newJob);
  }

  /** The API view of a job; `format` renders history dates. Every field
      of the job is carried over as it is, except three: the history
      becomes its rendered text, the priority index its table name, and
      the progress is not carried (the response's progress stays 0). */
  function ToJobResponseDto(j: Job, format: Time -> string): (r: JobResponse)
    ensures r.id == j.id && r.correlationId == j.correlationId && r.name == j.name
    ensures r.createdAt == j.createdAt && r.createdBy == j.createdBy
    ensures r.modifiedAt == j.modifiedAt && r.modifiedBy == j.modifiedBy
    ensures r.status == j.status && r.jobType == j.jobType && r.subType == j.subType
    ensures r.source == j.source && r.destination == j.destination
    ensures r.action == j.action && r.actionDetails == j.actionDetails
    ensures r.extraData == j.extraData && r.rank == j.rank
    ensures r.progress == 0
    ensures r.history == Render(j.history.entries, format)
    ensures r.priority == PriorityName(j.priority)
  {
    JobResponse(j.id, j.correlationId, j.name, j.createdAt, j.createdBy, j.modifiedAt, j.modifiedBy, j.status,
                j.source, j.destination, j.jobType, j.subType, j.action, j.actionDetails, 0,
                Render(j.history.entries, format), j.extraData, PriorityName(j.priority), j.rank)
  }

  /** The response carries the job's id and priority so that they can be
      read back: the priority name maps to the job's index again. */
  lemma ResponseReadsBack(j: Job, format: Time -> string)
    ensures ToJobResponseDto(j, format).id == j.id
    ensures IsValidPriority(ToJobResponseDto(j, format).priority)
    ensures PriorityIndexOf(ToJobResponseDto(j, format).priority) == j.priority
    ensures IsValidJobStatus(ToJobResponseDto(j, format).status) == IsValidJobStatus(j.status)
  {
    IndexNameRoundTrip(j.priority);
  }

  /** A fresh job's response: status created, priority medium, rank 0 and
      the one history line for "Job created". */
  lemma NewJobResponse(jobName: string, jobType: string, id: JobId, now: Time, nowText: string, format: Time -> string)
    requires !IsBlank(jobType)
    ensures NewJob(jobName, jobType, id, now, nowText).Ok?
    ensures var resp := ToJobResponseDto(NewJob(jobName, jobType, id, now, nowText).value, format);
            && resp.status == "created" && resp.priority == "medium" && resp.rank == 0
            && resp.history == format(now) + ": Job created\n"
  {
    var j := NewJob(jobName, jobType, id, now, nowText).value;
    assert IsNewJob(j, jobName, jobType, id, now, nowText);
    FreshResponse(j, format);
  }

  lemma FreshResponse(j: Job, format: Time -> string)
    requires j.status == StatusCreated && j.priority == DefaultPriority && j.rank == 0
    requires j.history.entries == [HistoryItem(j.createdAt, "Job created")]
    ensures var resp := ToJobResponseDto(j, format);
            && resp.status == "created" && resp.priority == "medium" && resp.rank == 0
            && resp.history == format(j.createdAt) + ": Job created\n"
  {
    DefaultIsMedium();
    JobCreatedLine(j.createdAt, format);
  }

  /** The rendering of a new job's history: one line for "Job created". */
  lemma JobCreatedLine(now: Time, format: Time -> string)
    ensures Render([HistoryItem(now, "Job created")], format) == format(now) + ": Job created\n"
  {
    var item := HistoryItem(now, "Job created");
    RenderOne(item, format);
    assert Line(item, format) == format(now) + (": " + "Job created" + "\n");
    assert ": " + "Job created" + "\n" == ": Job created\n";
  }
}
