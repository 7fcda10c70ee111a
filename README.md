# jobsvc core in Dafny

jobsvc is a small job-queue service. Clients create jobs, each with a type, a
priority and a rank. They list, filter and sort jobs, update them, and change
their status. They append history messages, and they dequeue the oldest
waiting job of a type. This project models the service's core and proves
properties of the model:

- **Domain** (module `Jobs` and friends):
  - the job record;
  - the priority table, a lookup table of (index, name) pairs;
  - the six statuses and their validity check;
  - the history log and its text rendering;
  - building a job from a create request;
  - projecting a job to its API response.
- **DTO** (`Dto`): the request and response records, and the filter operator
  table with its SQL operators and value patterns.
- **Repository helpers** (`RepositoryHelper`):
  - merging an update request into a stored job, with the history entry that
    lists the changed fields;
  - the SQL WHERE clause built from a filter list.
- **In-memory repository** (`JobRepositoryMemory`): a class over a map from id
  to job. It finds jobs (all, by status, by id), stores, deletes, dequeues,
  sets status and history, updates, and deletes all jobs.
- **Handler helpers** (`HandlerHelper`):
  - validation of the request bodies;
  - parsing of the query string into sort, limit, anchor id and filters.
- **Service** (`JobServices`): the operations the HTTP handlers call, written
  over a repository.

Go's `(value, error)` pairs become `Result<T>` (`Ok(value)` or `Err(ApiErr)`).
Functions that return only an error become `Outcome` (`Pass` or `Fail(ApiErr)`).

The model has two kinds of code:

- **Pure code** is datatypes, functions and lemmas: the validators, sort,
  limit and anchor parsing, the priority and status checks, and the merge
  specification.
- **Code that changes state or loops** is methods with loops and invariants,
  proved against specification functions (`ConstructWhereClause`,
  `HistoryList.ToString`, `ListChanges`, `ExtractFilters`). The in-memory
  repository is a class whose methods state the map it holds afterwards.

Go leaves the iteration order of a map unspecified. Every loop over a map
therefore returns a ghost `order`: the keys in the order the loop visited
them. The contract holds for every such order.

## Model

| member | source | states |
|---|---|---|
| Enums.Enum.Value | domain/enums.go:18-25 | the value of the first item carrying the index; with no such item, "" and NotFound "No item with index N found" |
| Enums.Enum.Index | domain/enums.go:27-34 | the slice position of the first item equal to the name ignoring case, with no earlier match; with none, 0 and NotFound "No item with name X found" that no item matches |
| Enums.Enum.Values | domain/enums.go:36-42 | one value per item, in item order |
| Enums.Enum.AsMap | domain/enums.go:44-50 | the keys are exactly the items' indices, and of several items with one index the later one's value wins |
| Enums.FromMap | domain/enums.go:52-59 | the old items are kept in front; one item is appended per map entry; every appended item is an entry of the map and every entry appears |
| Enums.PositionalValue | domain/enums.go:18-25 | in a table whose indices are the positions, Value(k) is item k's value with no error |
| Enums.PositionalRoundTrip | domain/enums.go:18-34 | in such a table, Value of the position that Index finds is the table's spelling, equal to the name ignoring case |
| JobPriorities.Positional | domain/JobPriority.go:5-7 | the priority table has five items, each stored at its own position |
| JobPriorities.NamesInOrder | domain/JobPriority.go:5-7 | the table's values are realtime, high, medium, low, idle in that order |
| JobPriorities.NamesDistinct | domain/JobPriority.go:5-7 | the names are in lower case and pairwise different even ignoring case |
| JobPriorities.PriorityIndexOf | repositories/JobRepositoryHelper.go:76-78 | a valid name gives the index of the table entry equal to it ignoring case; an invalid one gives 0 (the ignored error's zero value) |
| JobPriorities.PriorityName | domain/JobPriority.go:5-7 | the name at an index is the table entry's value, and the Value lookup succeeds with it |
| JobPriorities.ValidPriorityNames | domain/JobPriority.go:5-7 | a name is valid exactly when it equals one of the five ignoring case |
| JobPriorities.IndexNameRoundTrip | domain/JobPriority.go:5-7 | the name of an index is valid and indexes back to that index |
| JobPriorities.NameIndexRoundTrip | domain/JobPriority.go:5-7 | a valid name indexes to the entry whose name is its lower-case form |
| JobPriorities.HighIsValid | domain/JobPriority.go:5-7 | "high" and "High" are valid, and "High" is index 1 |
| JobPriorities.BogusIsInvalid | domain/JobPriority.go:5-7 | "bogus" is not a priority |
| JobPriorities.DefaultIsMedium | domain/job.go:138 | the default priority of a new job is named "medium", and "medium" indexes to it |
| JobStatuses.IsValidJobStatus | domain/JobStatus.go:16-28 | the check itself: lower-case, then trim, then compare with the six constants; its properties are the lemmas below |
| JobStatuses.ValidIsMembership | domain/JobStatus.go:16-28 | a status is valid exactly when its lower-cased, trimmed form is in the list of six |
| JobStatuses.StatusesDistinct | domain/JobStatus.go:7-14 | the six status constants are pairwise distinct |
| JobStatuses.EveryStatusValid | domain/JobStatus.go:16-28 | each of the six constants passes the check |
| JobStatuses.Normalised | domain/JobStatus.go:16-28 | the check gives the same answer on the lower-cased and trimmed string, in either order of the two steps |
| JobStatuses.IgnoresCase | domain/JobStatus.go:16-28 | strings equal ignoring case get the same answer |
| JobStatuses.IgnoresSurroundingSpace | domain/JobStatus.go:16-28 | white space around a string does not change the answer |
| JobStatuses.BlankRejected | domain/JobStatus.go:16-28 | an empty or all-white-space status is rejected |
| JobStatuses.BogusRejected | domain/JobStatus.go:16-28 | "bogus" is rejected |
| History.HistoryList.Add | domain/History.go:21-26 | exactly one entry (date, msg) is appended; the earlier entries are unchanged |
| History.HistoryList.AddNow | domain/History.go:28-31 | the same as Add, dated with the clock reading passed in |
| History.HistoryList.ToString | domain/History.go:33-39 | the loop builds the rendering of all entries in order: date, ": ", message, newline each |
| History.RenderEmpty | domain/History.go:33-39 | an empty history renders as "" |
| History.RenderOne | domain/History.go:33-39 | a one-entry history renders as that entry's line |
| History.RenderAdd | domain/History.go:21-39 | adding an entry appends exactly its line to the rendering |
| History.RenderConcat | domain/History.go:33-39 | rendering distributes over concatenation of entry lists |
| History.RenderLineCount | domain/History.go:33-39 | without newlines in dates and messages, the text has one newline per entry |
| Jobs.Job.AddHistory | repositories/JobRepositoryHelper.go:95 | the job's history gets one more entry (now, msg) and nothing else of the job changes |
| Jobs.CreateJobName | domain/job.go:143-152 | a non-blank name is kept; a blank one becomes "new job @ " followed by the local time text; the result is never blank |
| Jobs.NewJob | domain/job.go:112-141 | fails exactly when the type is blank, with BadRequest "Job must have a type"; otherwise the job has the given id, type, generated name, status created, priority medium, rank 0, created and modified now, empty other fields, and the one history entry "Job created" |
| Jobs.NormalisedRank | domain/job.go:190-194 | the requested rank is kept exactly when 0 <= rank < MaxInt32, else 0 |
| Jobs.RequestedPriority | domain/job.go:189 | no priority gives medium; a valid name gives the entry whose name is its lower-case form; a non-empty unknown name gives index 0 (realtime) |
| Jobs.NewJobFromJobRequestDto | domain/job.go:177-196 | fails exactly when NewJob does, with its error; otherwise NewJob's job with the request's descriptive fields, priority and normalised rank set |
| Jobs.ToJobResponseDto | domain/job.go:154-175 | the response copies id, correlation id, name, both stamps and authors, status, source, destination, type, subtype, action, its details, extra data and rank; the history is its rendered text, the priority the table's name for the index, and the progress is 0, since the source never sets it |
| Jobs.ResponseReadsBack | domain/job.go:154-175 | the response keeps the id; its priority name is valid and indexes back to the job's priority; status validity is kept |
| Jobs.NewJobResponse | domain/job.go:112-175 | the response of a new job has status "created", priority "medium", rank 0 and the single history line "<date>: Job created\n" |
| Jobs.FreshResponse | domain/job.go:154-175 | a job in the new-job state projects to status created, priority medium, rank 0 and the one "Job created" line |
| Jobs.JobCreatedLine | domain/job.go:117-119 | the history NewJob creates renders as the date and ": Job created\n" |
| Dto.OperatorsDistinct | dto/SortAndFilterRequest.go:26 | there are nine distinct operator codes |
| Dto.ReplacementCoversOperators | dto/SortAndFilterRequest.go:26-64 | the SQL replacement table has exactly the operator codes as keys |
| Dto.LikeOperators | dto/SortAndFilterRequest.go:36-47 | ct, sw and ew use LIKE with the patterns %@@%, @@% and %@@ |
| Dto.ComparisonOperators | dto/SortAndFilterRequest.go:28-63 | the non-LIKE operators insert the value unchanged, with =, !=, >, <, >=, <= |
| Dto.OnePlaceholderEach | dto/SortAndFilterRequest.go:28-64 | every pattern holds the placeholder exactly once |
| Dto.LikePatterns | dto/SortAndFilterRequest.go:36-47 | substituting into the LIKE patterns wraps the value in % on the intended sides |
| RepositoryHelper.RuneString | repositories/JobRepositoryHelper.go:85 | string(rank) is one character: the code point itself for a Unicode scalar value |
| RepositoryHelper.RankText | repositories/JobRepositoryHelper.go:83-86 | the decimal rank text is non-empty and parses back to the rank |
| RepositoryHelper.MergeJobs | repositories/JobRepositoryHelper.go:12-99 | the merged job is the stored job with every supplied field replaced, stamped now; when something was supplied, one history entry dated now lists every changed field with its value, in the map's visiting order; otherwise the history is unchanged |
| RepositoryHelper.MergeFields | repositories/JobRepositoryHelper.go:13-88 | the field-by-field merge gives the merged job and records exactly the supplied fields |
| RepositoryHelper.MergeText | repositories/JobRepositoryHelper.go:16-21 | one text field: the request's value when supplied, which is then recorded; else the stored value |
| RepositoryHelper.MergePriority | repositories/JobRepositoryHelper.go:76-82 | a supplied priority name becomes its index and is recorded as given; else the stored priority |
| RepositoryHelper.MergeRank | repositories/JobRepositoryHelper.go:83-88 | a non-zero rank replaces the stored one and is recorded |
| RepositoryHelper.ListChanges | repositories/JobRepositoryHelper.go:90-94 | one "name: value; " item per changed field, each field once, in the visiting order |
| RepositoryHelper.ChangeOf | repositories/JobRepositoryHelper.go:13-88 | a field is recorded exactly when the request supplies it, with the request's text |
| RepositoryHelper.MergeKeeps | repositories/JobRepositoryHelper.go:14-32 | the merge keeps id, creation time and author, status and progress, and sets modifiedAt to now and modifiedBy to "" |
| RepositoryHelper.MergeAgreesWithChanges | repositories/JobRepositoryHelper.go:16-75 | each text field of the merged job is the recorded change when supplied, else the stored text |
| RepositoryHelper.MergePriorityAndRank | repositories/JobRepositoryHelper.go:76-88 | the priority changes exactly when recorded, to the index of the recorded name; the rank changes exactly when recorded, and its text reads back as the new rank |
| RepositoryHelper.MergeValidPriority | repositories/JobRepositoryHelper.go:76-78 | a valid supplied priority is stored as the index whose name is its lower-case form |
| RepositoryHelper.EmptyUpdate | repositories/JobRepositoryHelper.go:90-97 | an empty request records nothing and changes only the modification stamp |
| RepositoryHelper.MergeIdempotent | repositories/JobRepositoryHelper.go:12-88 | merging the same request twice equals merging it once, apart from the later stamp |
| RepositoryHelper.AuditMessageShape | repositories/JobRepositoryHelper.go:90-95 | the change entry starts with "Job data changed. New Data: ", and holds one ';' per changed field when values hold none |
| RepositoryHelper.RuneStringLosesRank | repositories/JobRepositoryHelper.go:85 | the rank recorded by string(int32) never parses back as the rank; 25 is recorded as U+0019 instead of "25" |
| RepositoryHelper.ConstructWhereClause | repositories/JobRepositoryHelper.go:101-117 | the loop writes the conditions of all filters joined by " AND " |
| RepositoryHelper.WhereClauseEmpty | repositories/JobRepositoryHelper.go:101-117 | no filters give the empty clause |
| RepositoryHelper.WhereClauseAnd | repositories/JobRepositoryHelper.go:112-114 | a further filter appends " AND " and its condition |
| RepositoryHelper.WhereClauseSingle | repositories/JobRepositoryHelper.go:104-111 | one filter gives "field op 'pattern with the value'" |
| JobRepositoryMemory.ConvertMapToSlice | repositories/JobRepositoryMem.go:42-48 | the slice lists every stored job exactly once, in the visiting order |
| JobRepositoryMemory.FilterByStatus | repositories/JobRepositoryMem.go:50-64 | succeeds exactly when some job has the status, listing exactly those jobs once each; else NotFound "No jobs with status S in joblist" |
| JobRepositoryMemory.FilterById | repositories/JobRepositoryMem.go:77-86 | finds a stored job with the id exactly when one exists; with jobs keyed by id, that is the job stored under the id |
| JobRepositoryMemory.JobRepositoryMem.constructor | repositories/JobRepositoryMem.go:21-25 | the store starts empty |
| JobRepositoryMemory.JobRepositoryMem.FindAll | repositories/JobRepositoryMem.go:27-40 | an empty store gives NotFound "No jobs in job list"; a blank status lists all jobs; otherwise the jobs with that status |
| JobRepositoryMemory.JobRepositoryMem.FindById | repositories/JobRepositoryMem.go:66-75 | the job stored under the id, or NotFound naming an empty list or the missing id |
| JobRepositoryMemory.JobRepositoryMem.Store | repositories/JobRepositoryMem.go:88-94 | the job is stored under its id, stamped now; all other jobs are unchanged |
| JobRepositoryMemory.JobRepositoryMem.DeleteById | repositories/JobRepositoryMem.go:96-110 | a stored job is removed and nothing else; a missing one gives NotFound and no change |
| JobRepositoryMemory.JobRepositoryMem.Dequeue | repositories/JobRepositoryMem.go:112-140 | among created jobs of the type created before now plus one second, one with the earliest creation time; NotFound when the store is empty or no such job exists |
| JobRepositoryMemory.JobRepositoryMem.SetStatusById | repositories/JobRepositoryMem.go:142-151 | the job gets the new status, one history entry with the message, and the stamp; a missing job gives NotFound and no change |
| JobRepositoryMemory.JobRepositoryMem.SetHistoryById | repositories/JobRepositoryMem.go:153-161 | the job gets one history entry with the message and the stamp; a missing job gives NotFound and no change |
| JobRepositoryMemory.JobRepositoryMem.Update | repositories/JobRepositoryMem.go:163-171 | a stored job is replaced by its merge with the request, as MergeJobs states; a missing one gives NotFound and no change |
| JobRepositoryMemory.JobRepositoryMem.DeleteAllJobs | repositories/JobRepositoryMem.go:173-180 | the store is empty afterwards |
| HandlerHelper.ValidateCreateJobRequest | handler/JobHandlerHelper.go:17-27 | passes exactly when the type is given and any priority is valid; each failure has its message |
| HandlerHelper.ValidateUpdateJobRequest | handler/JobHandlerHelper.go:29-36 | passes exactly when any given priority is valid, else "Priority value X does not exist" |
| HandlerHelper.ValidateDequeueRequest | handler/JobHandlerHelper.go:38-43 | passes exactly when a type is given |
| HandlerHelper.ValidateUpdateJobStatusRequest | handler/JobHandlerHelper.go:45-53 | a missing status and an invalid status fail with their messages |
| HandlerHelper.ValidateUpdateJobHistoryRequest | handler/JobHandlerHelper.go:55-60 | passes exactly when a message is given |
| HandlerHelper.CreateIsTypedUpdate | handler/JobHandlerHelper.go:17-36 | with a type, create and update validation agree; a valid create is a valid update |
| HandlerHelper.AcceptedPriorityIsIndexed | handler/JobHandlerHelper.go:29-36 | an accepted priority names the entry whose name is its lower-case form |
| HandlerHelper.StatusCheckIsValidity | handler/JobHandlerHelper.go:45-53 | the status check passes exactly for valid statuses, i.e. the six names up to case and surrounding space |
| HandlerHelper.ExtractSort | handler/JobHandlerHelper.go:87-118 | no sortBy gives id DESC; a result names a column and ASC or DESC; failures are BadRequest |
| HandlerHelper.SortRoundTrip | handler/JobHandlerHelper.go:97-117 | "field.dir" is accepted exactly when field is a column and dir is asc or desc in any case, and gives back field and the upper-case direction |
| HandlerHelper.SortNeedsOneDot | handler/JobHandlerHelper.go:97-102 | a sortBy without exactly one dot is malformed |
| HandlerHelper.SortReadsBack | handler/JobHandlerHelper.go:103-117 | an accepted sort written back as field.dir equals the parameter ignoring case |
| HandlerHelper.ExtractLimit | handler/JobHandlerHelper.go:120-142 | no limit gives maxLimit; a result is the parameter's integer value within [1, maxLimit]; failures are BadRequest |
| HandlerHelper.LimitRoundTrip | handler/JobHandlerHelper.go:125-141 | a decimal limit is taken exactly within [1, maxLimit]; below or above, the message names the value and the range |
| HandlerHelper.LimitNotANumber | handler/JobHandlerHelper.go:125-130 | a limit that is not an integer fails with "Could not convert limit X to integer" |
| HandlerHelper.ExtractAnchorId | handler/JobHandlerHelper.go:144-156 | a blank anchor_id gives ""; otherwise the value, accepted exactly when it parses as a ksuid |
| HandlerHelper.ParseFilterValue | handler/JobHandlerHelper.go:166-184 | a parsed value filters the parameter's field with a known operator; failures are BadRequest |
| HandlerHelper.BareFilterValue | handler/JobHandlerHelper.go:172-175 | a value without a colon filters with eq on itself |
| HandlerHelper.OperatorFilterValue | handler/JobHandlerHelper.go:176-184 | "op:value" uses op when known, else fails with "Unknown operator op for filter" |
| HandlerHelper.TooManyColons | handler/JobHandlerHelper.go:166-171 | two or more colons are malformed |
| HandlerHelper.KeyFilter | handler/JobHandlerHelper.go:164-186 | a parameter's filter names that parameter |
| HandlerHelper.KeyFilterMeaning | handler/JobHandlerHelper.go:165-185 | a parameter yields a filter exactly when all its values parse; the last value wins; no values give the field alone |
| HandlerHelper.KeyFilterSticky | handler/JobHandlerHelper.go:165-171 | the first failing value decides the parameter's error |
| HandlerHelper.FiltersSticky | handler/JobHandlerHelper.go:160-192 | after an error the remaining parameters change nothing |
| HandlerHelper.FiltersSucceed | handler/JobHandlerHelper.go:158-193 | the scan succeeds exactly when every selected parameter parses |
| HandlerHelper.FiltersListing | handler/JobHandlerHelper.go:158-193 | a successful scan lists the selected parameters' filters in visiting order, with distinct fields |
| HandlerHelper.FiltersCover | handler/JobHandlerHelper.go:158-193 | a successful scan has a filter for every selected parameter visited |
| HandlerHelper.ExtractFilters | handler/JobHandlerHelper.go:158-193 | the loop over the query visits every key once and returns the scan's result for that order |
| HandlerHelper.ParseValues | handler/JobHandlerHelper.go:165-185 | the inner loop returns the parameter's filter or its first error |
| HandlerHelper.ValidateSortAndFilterRequest | handler/JobHandlerHelper.go:62-85 | succeeds exactly when sort, limit, anchor and filters all do, building the request from them with offset 0; otherwise the first error in that order |
| JobServices.StatusMessage | service/JobService.go:113-117 | the composed message: the prefix and the new status, with "; " and the request's message appended unless that message is blank; its shape is proved by StatusMessageParts |
| JobServices.StatusMessageParts | service/JobService.go:113-117 | the message starts with the prefix and the new status, and ends with "; " and the request's message exactly when that message is not blank |
| JobServices.ToResponses | service/JobService.go:44-47 | the loop projects every job, in order |
| JobServices.CreatedResponse | service/JobService.go:51-62 | a created job's response has the fresh id, status created, the type, the normalised rank and the one "Job created" line |
| JobServices.DefaultJobService.constructor | service/JobService.go:32-37 | the service holds the given repository |
| JobServices.DefaultJobService.GetAllJobs | service/JobService.go:39-49 | the repository's jobs projected in order, with its total count; or its error |
| JobServices.DefaultJobService.CreateJob | service/JobService.go:51-62 | a typeless request fails before the repository is called; otherwise the built job is stored once, and the result is its response or the store's error |
| JobServices.DefaultJobService.GetJobById | service/JobService.go:64-71 | the found job's response, or the repository's error |
| JobServices.DefaultJobService.DeleteJobById | service/JobService.go:73-83 | a job that is not found gives NotFound "Job with id X does not exist" and no delete; else the delete's result |
| JobServices.DefaultJobService.Dequeue | service/JobService.go:85-92 | the dequeued job's response, or the repository's error |
| JobServices.DefaultJobService.UpdateJob | service/JobService.go:94-105 | a job that is not found gives NotFound and no update; else the updated job's response or the update's error |
| JobServices.DefaultJobService.SetStatusById | service/JobService.go:107-123 | a job that is not found gives NotFound and no change; else the repository sets the status with the composed message |
| JobServices.DefaultJobService.SetHistoryById | service/JobService.go:125-135 | a job that is not found gives NotFound and no change; else the repository appends the message |
| JobServices.DefaultJobService.DeleteAllJobs | service/JobService.go:137-143 | the repository's result |

## Left out

- Concurrency: the in-memory repository's mutex is not modelled. Each method is one atomic step.
- The SQL repository (repositories/JobRepositoryDb.go), the HTTP and UI handlers, configuration, metrics and the generated mocks sit outside the core.
- CleanJobs of the service, and the repository's CleanupJobs behind it, are not modelled.
- Outside inputs become parameters:
  - ksuid generation: the fresh `id`.
  - ksuid parsing: `isKsuid`.
  - the clocks: `now` and the local time text `nowText`.
  - time formatting with the API date layout: `format`.
- One call reads the clock once. The model uses that one instant where the source reads the UTC and the local clock separately.
- JSON (de)serialisation of the history (Value and Scan) is not modelled; the history is a value inside the job.
- Logging calls are left out.
- Case folding (ToLower, ToUpper, EqualFold) is ASCII-only. TrimSpace uses Go's white-space set.
- JobPriority: the table comes from an external enums package. The model reads it with the lookups of domain/enums.go (first match by index, first match by name ignoring case).
- Priority representation: domain/job.go as given declares the priority as a string.
  - The rest of the core treats it as an index into the table: JobRepositoryHelper.go, JobHandlerHelper.go, and the job tests (domain/Job_test.go:93, 170-212). The model follows the rest of the core.
  - The rest of the core also has a Progress field and an AddHistory method on Job, which the model includes.
- Jobs.NewJobFromJobRequestDto: the model follows the index form. An empty priority keeps the default medium; a non-empty one resolves by name, to 0 when unknown, as mergeJobs does.
  - The job test at domain/Job_test.go:159-167 expects a BadRequest error for an invalid priority. Neither version of the code produces one, so the model does not (the handler's validation rejects such requests before this point).
- Jobs.RequestedPriority: a non-empty name that is not a priority silently gives index 0 (realtime), as the ignored error of the lookup does; the BadRequest that domain/Job_test.go:159-167 expects is not produced (see the line above).
- HandlerHelper.ParseFilterValue: the malformed-value message keeps the code's spelling "<operaor>"; the handler test expects "<operator>".
- The handler tests also exercise a limit-and-offset extraction that the code does not have. The model's SortAndFilterRequest always has offset 0.
- A filter's value is kept as the parsed string; the source's value field is untyped.
- RepositoryHelper.MergeJobs: the source appends the change entry to the caller's job in place and then copies that history into the merged job. The model returns the extended history in the merged job only. The rank is recorded as decimal text (RepositoryHelper.RankText), not as the source's `string(int32)` rune conversion; see Findings.
- The service's repository interface takes a sort/filter request in FindAll and returns a total count; JobRepositoryMem.FindAll takes a status. The two do not fit together in the source, so:
  - The service is modelled over an abstract repository class that records each call it gets and answers from the calls made so far.
  - The in-memory repository is modelled on its own.
- Go's nil *Job values become Err results.
- JobRepositoryMemory.JobRepositoryMem.Store always returns nil in the source, so the model's Store has no result.
- JobRepositoryMemory.JobRepositoryMem.Dequeue: when several jobs share the earliest creation time, the job returned depends on the map order. The contract promises one of them.
- The anchor `isKsuid` and the date `format` are total functions; errors from time formatting do not arise.

## Findings

| source | as written | input that shows it | evidently intended | confidence | as-written member | corrected member |
|---|---|---|---|---|---|---|
| repositories/JobRepositoryHelper.go:85 | the update's history entry records the new rank as `string(updJobReq.Rank)`, which turns an int32 into the one-character string of that code point | an update with rank 25 records "Rank: \u0019; " instead of "Rank: 25; " | the rank in decimal, as every other field is recorded as readable text | not executed | RepositoryHelper.RuneStringLosesRank | RepositoryHelper.RankText |
