/** Request validation and query-parameter parsing of the HTTP handlers
    (handler/JobHandlerHelper.go). The query is Go's url.Values, a map from
    parameter name to the values given for it; the ksuid parser is a
    parameter: `isKsuid` says whether a string parses as one. */
module HandlerHelper {
  import opened Common
  import opened GoStrings
  import opened JobStatuses
  import opened JobPriorities
  import opened Dto

  // ---- request validation ----

  /** validateCreateJobRequest: a type is required, and a supplied priority
      must be one of the table's names. */
  function ValidateCreateJobRequest(newReq: CreateUpdateJobRequest): (err: Outcome)
    ensures err == Pass <==> newReq.jobType != "" && (newReq.priority == "" || IsValidPriority(newReq.priority))
    ensures newReq.jobType == "" ==> err == Fail(BadRequestError("Job create / update request must have a type"))
    ensures newReq.jobType != "" && err.Fail? ==>
              err == Fail(BadRequestError("Priority value " + newReq.priority + " does not exist"))
  {
    if newReq.jobType == "" then Fail(BadRequestError("Job create / update request must have a type"))
    else if newReq.priority != "" && !IsValidPriority(newReq.priority) then
      Fail(BadRequestError("Priority value " + newReq.priority + " does not exist"))
    else Pass
  }

  /** validateUpdateJobRequest: only a supplied priority is checked; an
      update may leave the type empty. */
  function ValidateUpdateJobRequest(newReq: CreateUpdateJobRequest): (err: Outcome)
    ensures err == Pass <==> newReq.priority == "" || IsValidPriority(newReq.priority)
    ensures err.Fail? ==> err == Fail(BadRequestError("Priority value " + newReq.priority + " does not exist"))
  {
    if newReq.priority != "" && !IsValidPriority(newReq.priority) then
      Fail(BadRequestError("Priority value " + newReq.priority + " does not exist"))
    else Pass
  }

  /** validateDequeueRequest: a type is required. */
  function ValidateDequeueRequest(newReq: DequeueRequest): (err: Outcome)
    ensures err == Pass <==> newReq.jobType != ""
    ensures err.Fail? ==> err == Fail(BadRequestError("Dequeue request must have a type"))
  {
    if newReq.jobType == "" then Fail(BadRequestError("Dequeue request must have a type")) else Pass
  }

  /** validateUpdateJobStatusRequest: a status is required and must be one
      of the six, ignoring case and surrounding white space. */
  function ValidateUpdateJobStatusRequest(newReq: UpdateJobStatusRequest): (err: Outcome)
    ensures newReq.status == "" ==> err == Fail(BadRequestError("Update status request must have a status"))
    ensures newReq.status != "" && err.Fail? ==>
              err == Fail(BadRequestError("Wrong status value " + newReq.status + " when updating job status"))
  {
    if newReq.status == "" then Fail(BadRequestError("Update status request must have a status"))
    else if !IsValidJobStatus(newReq.status) then
      Fail(BadRequestError("Wrong status value " + newReq.status + " when updating job status"))
    else Pass
  }

  /** validateUpdateJobHistoryRequest: a message is required. */
  function ValidateUpdateJobHistoryRequest(newReq: UpdateJobHistoryRequest): (err: Outcome)
    ensures err == Pass <==> newReq.message != ""
    ensures err.Fail? ==> err == Fail(BadRequestError("Update history request must have a message"))
  {
    if newReq.message == "" then Fail(BadRequestError("Update history request must have a message")) else Pass
  }

  /** Creating checks the type and then exactly what updating checks. */
  lemma CreateIsTypedUpdate(newReq: CreateUpdateJobRequest)
    ensures newReq.jobType != "" ==> ValidateCreateJobRequest(newReq) == ValidateUpdateJobRequest(newReq)
    ensures ValidateCreateJobRequest(newReq) == Pass ==> ValidateUpdateJobRequest(newReq) == Pass
  {
  }

  /** A priority that passes validation names a table entry, whose name is
      the request's spelling in lower case: what the merge then stores. */
  lemma AcceptedPriorityIsIndexed(newReq: CreateUpdateJobRequest)
    requires ValidateUpdateJobRequest(newReq) == Pass && newReq.priority != ""
    ensures PriorityName(PriorityIndexOf(newReq.priority)) == ToLower(newReq.priority)
  {
    NameIndexRoundTrip(newReq.priority);
  }

  /** The status check accepts exactly the valid statuses (the empty string
      is not one), i.e. the six names up to case and surrounding space. */
  lemma StatusCheckIsValidity(newReq: UpdateJobStatusRequest)
    ensures ValidateUpdateJobStatusRequest(newReq) == Pass <==> IsValidJobStatus(newReq.status)
    ensures ValidateUpdateJobStatusRequest(newReq) == Pass <==> TrimSpace(ToLower(newReq.status)) in Statuses
  {
    if newReq.status == "" {
      BlankRejected(newReq.status);
    }
    ValidIsMembership(newReq.status);
  }

  // ---- query parameters ----

  /** url.Values: each parameter name with the values given for it. */
  type Params = map<string, seq<string>>

  /** url.Values.Get: the first value given for key, or "". */
  function Get(params: Params, key: string): string
  {
    if key in params && |params[key]| > 0 then params[key][0] else ""
  }

  /** The column names of a job (GetJobDbFieldsAsStrings). */
  const JobDbFields: seq<string> := ["id", "correlation_id", "name", "created_at", "created_by", "modified_at",
    "modified_by", "status", "source", "destination", "type", "sub_type", "action", "action_details",
    "progress", "history", "extra_data", "priority", "rank"]

  predicate IsJobDbField(s: string) {
    SliceContains(JobDbFields, s)
  }

  const MalformedSortMessage: string := "Malformed sortBy parameter. Should be <field>.<sortdirection>"

  /** extractSort: {id, DESC} when no sortBy is given; otherwise the value
      must be "<field>.<direction>" with a column name and asc or desc in
      any case, and the direction comes back in upper case. */
  function ExtractSort(params: Params): (r: Result<SortBy>)
    ensures Get(params, "sortBy") == "" ==> r == Ok(SortBy("id", "DESC"))
    ensures r.Ok? ==> IsJobDbField(r.value.field) && (r.value.dir == "ASC" || r.value.dir == "DESC")
    ensures r.Err? ==> r.error.kind == BadRequest
  {
    var sortBy := Get(params, "sortBy");
    if |sortBy| == 0 then Ok(SortBy("id", "DESC"))
    else
      var sortBySplit := Split(sortBy, '.');
      if |sortBySplit| != 2 then Err(BadRequestError(MalformedSortMessage))
      else
        var field := sortBySplit[0];
        var order := ToLower(sortBySplit[1]);
        if !IsJobDbField(field) then Err(BadRequestError("Unknown field " + field + " for sortBy"))
        else if order != "desc" && order != "asc" then
          Err(BadRequestError("Malformed sort direction " + order + ". Should be asc or desc"))
        else
          assert ToUpper("asc") == "ASC" && ToUpper("desc") == "DESC";
          Ok(SortBy(field, ToUpper(order)))
  }

  /** A sortBy of the form field.direction (neither part holding a dot) is
      accepted exactly when the field is a column and the direction is asc or
      desc in any case, and then gives back that field and direction. */
  lemma SortRoundTrip(params: Params, field: string, dir: string)
    requires Get(params, "sortBy") == field + "." + dir
    requires '.' !in field && '.' !in dir
    ensures ExtractSort(params).Ok? <==> IsJobDbField(field) && (ToLower(dir) == "asc" || ToLower(dir) == "desc")
    ensures ExtractSort(params).Ok? ==> ExtractSort(params).value == SortBy(field, ToUpper(ToLower(dir)))
  {
    SplitTwo(field, '.', dir);
  }

  /** A sortBy without a dot, or with more than one, is malformed. */
  lemma SortNeedsOneDot(params: Params)
    requires Get(params, "sortBy") != "" && Count(Get(params, "sortBy"), '.') != 1
    ensures ExtractSort(params) == Err(BadRequestError(MalformedSortMessage))
  {
  }

  /** Lower-casing an upper-cased lower-case character gives it back. */
  lemma LowerUpperLower(s: string)
    ensures ToLower(ToUpper(ToLower(s))) == ToLower(s)
  {
    forall i | 0 <= i < |s|
      ensures LowerChar(UpperChar(LowerChar(s[i]))) == LowerChar(s[i])
    {
    }
  }

  /** An accepted sortBy reads back, up to case, from the sort it produced. */
  lemma SortReadsBack(params: Params)
    requires Get(params, "sortBy") != "" && ExtractSort(params).Ok?
    ensures EqualFold(ExtractSort(params).value.field + "." + ExtractSort(params).value.dir, Get(params, "sortBy"))
  {
    var sortBy := Get(params, "sortBy");
    var parts := Split(sortBy, '.');
    JoinSplit(sortBy, '.');
    assert Join(parts, ".") == parts[0] + "." + parts[1] by {
      assert parts[1..] == [parts[1]];
    }
    LowerUpperLower(parts[1]);
    ToLowerConcat(parts[0] + ".", ToUpper(ToLower(parts[1])));
    ToLowerConcat(parts[0] + ".", parts[1]);
  }

  /** extractLimit: maxLimit when no limit is given; otherwise a decimal
      integer between 1 and maxLimit. */
  function ExtractLimit(params: Params, maxLimit: int): (r: Result<int>)
    ensures Get(params, "limit") == "" ==> r == Ok(maxLimit)
    ensures Get(params, "limit") != "" && r.Ok? ==> 1 <= r.value <= maxLimit && Atoi(Get(params, "limit")) == Some(r.value)
    ensures r.Err? ==> r.error.kind == BadRequest
  {
    var limitStr := Get(params, "limit");
    if limitStr == "" then Ok(maxLimit)
    else
      match Atoi(limitStr)
      case None => Err(BadRequestError("Could not convert limit " + limitStr + " to integer"))
      case Some(limit) =>
        if limit < 1 then
          Err(BadRequestError("Limit was set to " + IntToString(limit) + " (too low). Must be between 1 and "
                              + IntToString(maxLimit)))
        else if limit > maxLimit then
          Err(BadRequestError("Limit was set to " + IntToString(limit) + " (too high). Must be between 1 and "
                              + IntToString(maxLimit)))
        else Ok(limit)
  }

  /** A limit written in decimal is taken exactly when it lies in
      [1, maxLimit]; outside that range the message names the range. */
  lemma LimitRoundTrip(params: Params, n: int, maxLimit: int)
    requires Get(params, "limit") == IntToString(n) && MinInt64 <= n <= MaxInt64
    ensures 1 <= n <= maxLimit ==> ExtractLimit(params, maxLimit) == Ok(n)
    ensures n < 1 ==> ExtractLimit(params, maxLimit) == Err(BadRequestError("Limit was set to " + IntToString(n)
              + " (too low). Must be between 1 and " + IntToString(maxLimit)))
    ensures 1 <= n && n > maxLimit ==> ExtractLimit(params, maxLimit) == Err(BadRequestError("Limit was set to " + IntToString(n)
              + " (too high). Must be between 1 and " + IntToString(maxLimit)))
  {
    AtoiIntToString(n);
    assert IntToString(n) != "" by {
      if n < 0 { } else { }
    }
  }

  /** A limit that is no integer is refused with the value in the message. */
  lemma LimitNotANumber(params: Params, maxLimit: int)
    requires Get(params, "limit") != "" && Atoi(Get(params, "limit")).None?
    ensures ExtractLimit(params, maxLimit)
              == Err(BadRequestError("Could not convert limit " + Get(params, "limit") + " to integer"))
  {
  }

  /** extractAnchorId: "" when no anchor id (or only white space) is given;
      otherwise the value, which must parse as a ksuid. */
  function ExtractAnchorId(params: Params, isKsuid: string -> bool): (r: Result<string>)
    ensures IsBlank(Get(params, "anchor_id")) ==> r == Ok("")
    ensures !IsBlank(Get(params, "anchor_id")) ==>
              (r.Ok? <==> isKsuid(Get(params, "anchor_id"))) && (r.Ok? ==> r.value == Get(params, "anchor_id"))
    ensures r.Err? ==> r.error == BadRequestError("Anchor Id should be a ksuid")
  {
    var anchorId := Get(params, "anchor_id");
    if TrimSpace(anchorId) == "" then Ok("")
    else if !isKsuid(anchorId) then Err(BadRequestError("Anchor Id should be a ksuid"))
    else Ok(anchorId)
  }

  // ---- filters ----

  /** The message for a filter value with more than one colon, as the
      source spells it. */
  const MalformedFilterMessage: string := "Malformed filter value. Should either be single value or <operaor>:<value>"

  /** One value of a filter parameter: a bare value means "eq", otherwise
      "<operator>:<value>" with a known operator code. */
  function ParseFilterValue(key: string, innerVal: string): (r: Result<FilterBy>)
    ensures r.Ok? ==> r.value.field == key && SliceContains(Operators, r.value.operator)
    ensures r.Err? ==> r.error.kind == BadRequest
  {
    var valSplit := Split(innerVal, ':');
    if |valSplit| != 1 && |valSplit| != 2 then Err(BadRequestError(MalformedFilterMessage))
    else if |valSplit| == 1 then
      assert SliceContains(Operators, "eq");
      Ok(FilterBy(key, "eq", valSplit[0]))
    else if !SliceContains(Operators, valSplit[0]) then Err(BadRequestError("Unknown operator " + valSplit[0] + " for filter"))
    else Ok(FilterBy(key, valSplit[0], valSplit[1]))
  }

  /** A value without a colon filters for equality with itself. */
  lemma BareFilterValue(key: string, v: string)
    requires ':' !in v
    ensures ParseFilterValue(key, v) == Ok(FilterBy(key, "eq", v))
  {
    SplitNoSeparator(v, ':');
  }

  /** "op:value" filters with op when op is a known operator code, and is
      refused with the unknown code otherwise. */
  lemma OperatorFilterValue(key: string, op: string, v: string)
    requires ':' !in op && ':' !in v
    ensures op in Operators ==> ParseFilterValue(key, op + ":" + v) == Ok(FilterBy(key, op, v))
    ensures op !in Operators ==>
              ParseFilterValue(key, op + ":" + v) == Err(BadRequestError("Unknown operator " + op + " for filter"))
  {
    SplitTwo(op, ':', v);
    SliceContainsIsMembership(Operators, op);
  }

  /** A value with two or more colons is malformed. */
  lemma TooManyColons(key: string, v: string)
    requires Count(v, ':') >= 2
    ensures ParseFilterValue(key, v) == Err(BadRequestError(MalformedFilterMessage))
  {
  }

  /** The filter of one parameter: every value given is parsed in turn and
      the last one wins; the first value that fails decides the error. With
      no values the filter names the field only. */
  function KeyFilter(key: string, vals: seq<string>): (r: Result<FilterBy>)
    ensures r.Ok? ==> r.value.field == key
    decreases |vals|
  {
    if |vals| == 0 then Ok(FilterBy(key, "", ""))
    else
      var prior := KeyFilter(key, vals[..|vals| - 1]);
      if prior.Err? then prior else ParseFilterValue(key, vals[|vals| - 1])
  }

  /** A parameter yields a filter exactly when each of its values parses;
      the filter then is that of the last value, or names the field only
      when no value is given. */
  lemma {:induction false} KeyFilterMeaning(key: string, vals: seq<string>)
    ensures KeyFilter(key, vals).Ok? <==> forall i :: 0 <= i < |vals| ==> ParseFilterValue(key, vals[i]).Ok?
    ensures KeyFilter(key, vals).Ok? && |vals| > 0 ==> KeyFilter(key, vals).value == ParseFilterValue(key, vals[|vals| - 1]).value
    ensures KeyFilter(key, vals).Ok? && |vals| == 0 ==> KeyFilter(key, vals).value == FilterBy(key, "", "")
    decreases |vals|
  {
    if |vals| > 0 {
      var shorter := vals[..|vals| - 1];
      KeyFilterMeaning(key, shorter);
      assert forall i :: 0 <= i < |shorter| ==> shorter[i] == vals[i];
    }
  }

  /** Once a prefix of the values fails, the whole parameter fails the same way. */
  lemma {:induction false} KeyFilterSticky(key: string, vals: seq<string>, i: nat)
    requires i <= |vals| && KeyFilter(key, vals[..i]).Err?
    ensures KeyFilter(key, vals) == KeyFilter(key, vals[..i])
    decreases |vals| - i
  {
    if i < |vals| {
      assert vals[..i + 1][..i] == vals[..i];
      KeyFilterSticky(key, vals, i + 1);
    } else {
      assert vals[..i] == vals;
    }
  }

  /** The parameters extractFilters turns into filters: column names other
      than sortBy, limit and anchor. */
  predicate Selected(key: string) {
    key != "sortBy" && key != "limit" && key != "anchor" && IsJobDbField(key)
  }

  /** The filters of the parameters visited in `order`: one per selected
      parameter, in visiting order, or the first error met. */
  function FiltersFrom(params: Params, order: seq<string>): Result<seq<FilterBy>>
    requires forall i :: 0 <= i < |order| ==> order[i] in params
    decreases |order|
  {
    if |order| == 0 then Ok([])
    else
      var prior := FiltersFrom(params, order[..|order| - 1]);
      var key := order[|order| - 1];
      if prior.Err? || !Selected(key) then prior
      else
        var f := KeyFilter(key, params[key]);
        if f.Err? then Err(f.error) else Ok(prior.value + [f.value])
  }

  ghost predicate Distinct(order: seq<string>) {
    forall i, j :: 0 <= i < j < |order| ==> order[i] != order[j]
  }

  /** `order` visits every parameter name exactly once. */
  ghost predicate IsKeyOrdering(order: seq<string>, params: Params) {
    Distinct(order) && forall k :: k in order <==> k in params
  }

  /** Some order of the names in s. */
  ghost function Enumeration(s: set<string>): (order: seq<string>)
    ensures Distinct(order) && forall k :: k in order <==> k in s
    decreases |s|
  {
    if s == {} then []
    else
      EmptyOrMember(s);
      var k :| k in s;
      var rest := Enumeration(s - {k});
      assert forall i :: 0 < i < |[k] + rest| ==> ([k] + rest)[i] == rest[i - 1];
      [k] + rest
  }

  /** After an error the remaining parameters change nothing. */
  lemma {:induction false} FiltersSticky(params: Params, visited: seq<string>, rest: seq<string>)
    requires forall i :: 0 <= i < |visited| ==> visited[i] in params
    requires forall i :: 0 <= i < |visited + rest| ==> (visited + rest)[i] in params
    requires FiltersFrom(params, visited).Err?
    ensures FiltersFrom(params, visited + rest) == FiltersFrom(params, visited)
    decreases |rest|
  {
    if |rest| == 0 {
      assert visited + rest == visited;
    } else {
      var shorter := rest[..|rest| - 1];
      assert (visited + rest)[..|visited + rest| - 1] == visited + shorter;
      FiltersSticky(params, visited, shorter);
    }
  }

  /** Every selected parameter in `order` parses. */
  ghost predicate AllSelectedParse(params: Params, order: seq<string>)
    requires forall i :: 0 <= i < |order| ==> order[i] in params
  {
    forall i :: 0 <= i < |order| && Selected(order[i]) ==> KeyFilter(order[i], params[order[i]]).Ok?
  }

  /** The scan succeeds exactly when every selected parameter it visits
      parses, whatever the order. */
  lemma {:induction false} FiltersSucceed(params: Params, order: seq<string>)
    requires forall i :: 0 <= i < |order| ==> order[i] in params
    ensures FiltersFrom(params, order).Ok? <==> AllSelectedParse(params, order)
    decreases |order|
  {
    if |order| > 0 {
      var shorter := order[..|order| - 1];
      var key := order[|order| - 1];
      FiltersSucceed(params, shorter);
      AllSelectedParseSnoc(params, order);
    }
  }

  lemma AllSelectedParseSnoc(params: Params, order: seq<string>)
    requires |order| > 0 && forall i :: 0 <= i < |order| ==> order[i] in params
    ensures var key := order[|order| - 1];
            AllSelectedParse(params, order) <==>
              AllSelectedParse(params, order[..|order| - 1]) && (Selected(key) ==> KeyFilter(key, params[key]).Ok?)
  {
    var shorter := order[..|order| - 1];
    assert forall i :: 0 <= i < |shorter| ==> shorter[i] == order[i];
  }

  /** A successful scan lists, in visiting order, the filter of each
      selected parameter it visited, and no field twice. */
  lemma {:induction false} FiltersListing(params: Params, order: seq<string>)
    requires Distinct(order) && forall i :: 0 <= i < |order| ==> order[i] in params
    requires FiltersFrom(params, order).Ok?
    ensures var fs := FiltersFrom(params, order).value;
              && (forall j :: 0 <= j < |fs| ==>
                    fs[j].field in order && Selected(fs[j].field) && KeyFilter(fs[j].field, params[fs[j].field]).Ok?
                    && fs[j] == KeyFilter(fs[j].field, params[fs[j].field]).value)
              && (forall j, l :: 0 <= j < l < |fs| ==> fs[j].field != fs[l].field)
    decreases |order|
  {
    if |order| > 0 {
      var shorter := order[..|order| - 1];
      var key := order[|order| - 1];
      assert forall i :: 0 <= i < |shorter| ==> shorter[i] == order[i];
      assert key !in shorter;
      FiltersListing(params, shorter);
      var prior := FiltersFrom(params, shorter).value;
      if Selected(key) {
        var fs := FiltersFrom(params, order).value;
        assert fs == prior + [KeyFilter(key, params[key]).value];
        assert forall j :: 0 <= j < |prior| ==> fs[j] == prior[j] && prior[j].field in shorter;
      }
    }
  }

  /** A successful scan has a filter for every selected parameter it visited. */
  lemma FiltersCover(params: Params, order: seq<string>)
    requires forall i :: 0 <= i < |order| ==> order[i] in params
    requires FiltersFrom(params, order).Ok?
    ensures var fs := FiltersFrom(params, order).value;
              forall i :: 0 <= i < |order| && Selected(order[i]) ==> exists j :: 0 <= j < |fs| && fs[j].field == order[i]
  {
    var fs := FiltersFrom(params, order).value;
    forall i | 0 <= i < |order| && Selected(order[i])
      ensures exists j :: 0 <= j < |fs| && fs[j].field == order[i]
    {
      CoverOne(params, order, i);
    }
  }

  /** The selected parameter at position i of a successful scan has a filter. */
  lemma {:induction false} CoverOne(params: Params, order: seq<string>, i: nat)
    requires forall k :: 0 <= k < |order| ==> order[k] in params
    requires FiltersFrom(params, order).Ok?
    requires i < |order| && Selected(order[i])
    ensures exists j :: 0 <= j < |FiltersFrom(params, order).value| && FiltersFrom(params, order).value[j].field == order[i]
    decreases |order|
  {
    var shorter := order[..|order| - 1];
    var key := order[|order| - 1];
    var fs := FiltersFrom(params, order).value;
    if i == |order| - 1 {
      assert fs == FiltersFrom(params, shorter).value + [KeyFilter(key, params[key]).value];
      assert fs[|fs| - 1].field == order[i];
    } else {
      assert shorter[i] == order[i];
      CoverOne(params, shorter, i);
      var prior := FiltersFrom(params, shorter).value;
      var j :| 0 <= j < |prior| && prior[j].field == order[i];
      assert Selected(key) ==> fs == prior + [KeyFilter(key, params[key]).value];
      assert fs[j] == prior[j];
    }
  }

  /** extractFilters: the filters of the query's column parameters, in Go's
      unspecified map order, which `order` reports; the first malformed value
      met ends the scan with its error. */
  method ExtractFilters(safParams: Params) returns (r: Result<seq<FilterBy>>, ghost order: seq<string>)
    ensures IsKeyOrdering(order, safParams)
    ensures r == FiltersFrom(safParams, order)
  {
    var filters: seq<FilterBy> := [];
    order := [];
    var remaining := safParams.Keys;
    while remaining != {}
      invariant forall k :: k in safParams <==> k in remaining || k in order
      invariant forall k :: k in remaining ==> k !in order
      invariant Distinct(order)
      invariant FiltersFrom(safParams, order) == Ok(filters)
      decreases |remaining|
    {
      var key := Pick(remaining);
      ghost var visited := order + [key];
      assert visited[..|order|] == order;
      if key != "sortBy" && key != "limit" && key != "anchor" {
        if IsJobDbField(key) {
          var filter := ParseValues(key, safParams[key]);
          if filter.Err? {
            r := Err(filter.error);
            order := Abandon(safParams, order, key, remaining, filters);
            return;
          }
          filters := filters + [filter.value];
        }
      }
      order := visited;
      remaining := remaining - {key};
    }
    r := Ok(filters);
  }

  /** The inner loop of extractFilters over the values of one parameter:
      each value overwrites the filter's operator and value, and the first
      malformed one ends the whole scan. */
  method ParseValues(key: string, val: seq<string>) returns (r: Result<FilterBy>)
    ensures r == KeyFilter(key, val)
  {
    var filter := FilterBy(key, "", "");
    var i := 0;
    while i < |val|
      invariant 0 <= i <= |val|
      invariant KeyFilter(key, val[..i]) == Ok(filter)
    {
      assert val[..i + 1][..i] == val[..i];
      var valSplit := Split(val[i], ':');
      if |valSplit| != 1 && |valSplit| != 2 {
        r := Err(BadRequestError(MalformedFilterMessage));
        KeyFilterSticky(key, val, i + 1);
        return;
      }
      if |valSplit| == 1 {
        filter := filter.(operator := "eq", value := valSplit[0]);
      }
      if |valSplit| == 2 {
        if !SliceContains(Operators, valSplit[0]) {
          r := Err(BadRequestError("Unknown operator " + valSplit[0] + " for filter"));
          KeyFilterSticky(key, val, i + 1);
          return;
        }
        filter := filter.(operator := valSplit[0], value := valSplit[1]);
      }
      i := i + 1;
    }
    assert val[..|val|] == val;
    r := Ok(filter);
  }

  /** Two sequences without repeats and without common names concatenate
      to one without repeats. */
  lemma DistinctConcat(a: seq<string>, b: seq<string>)
    requires Distinct(a) && Distinct(b) && forall k :: k in a ==> k !in b
    ensures Distinct(a + b)
  {
    forall i, j | 0 <= i < j < |a + b| ensures (a + b)[i] != (a + b)[j] {
      if j < |a| {
      } else if i < |a| {
        assert (a + b)[j] == b[j - |a|];
        assert (a + b)[i] in a;
      } else {
        assert (a + b)[i] == b[i - |a|] && (a + b)[j] == b[j - |a|];
      }
    }
  }

  /** Appending members of s to a sequence of members of s. */
  lemma ConcatWithin(a: seq<string>, b: seq<string>, s: set<string>)
    requires forall i :: 0 <= i < |a| ==> a[i] in s
    requires forall k :: k in b ==> k in s
    ensures forall i :: 0 <= i < |a + b| ==> (a + b)[i] in s
  {
    forall i | 0 <= i < |a + b| ensures (a + b)[i] in s {
      if i >= |a| {
        assert (a + b)[i] == b[i - |a|];
      }
    }
  }

  /** When the parameter `key` fails, the scan's result is that error for
      any order of the parameters not yet visited. */
  lemma Abandon(params: Params, order: seq<string>, key: string, remaining: set<string>, filters: seq<FilterBy>)
    returns (full: seq<string>)
    requires forall k :: k in params <==> k in remaining || k in order
    requires forall k :: k in remaining ==> k !in order
    requires Distinct(order) && key in remaining && Selected(key)
    requires FiltersFrom(params, order) == Ok(filters)
    requires KeyFilter(key, params[key]).Err?
    ensures IsKeyOrdering(full, params)
    ensures FiltersFrom(params, full) == Err(KeyFilter(key, params[key]).error)
  {
    var visited := order + [key];
    assert visited[..|order|] == order;
    assert FiltersFrom(params, visited) == Err(KeyFilter(key, params[key]).error);
    var rest := Enumeration(remaining - {key});
    full := visited + rest;
    assert forall k :: k in rest ==> k in params.Keys;
    ConcatWithin(visited, rest, params.Keys);
    FiltersSticky(params, visited, rest);
    assert Distinct(visited) by {
      DistinctConcat(order, [key]);
    }
    DistinctConcat(visited, rest);
  }

  /** validateSortAndFilterRequest: the sort, limit, anchor id and filters
      of the query, checked in that order; the first error is returned. The
      offset is left at zero. When the scan of the filters is not reached,
      `order` is just some order of the parameters. */
  method ValidateSortAndFilterRequest(safParams: Params, maxLimit: int, isKsuid: string -> bool)
    returns (r: Result<SortAndFilterRequest>, ghost order: seq<string>)
    ensures IsKeyOrdering(order, safParams)
    ensures r.Ok? <==> ExtractSort(safParams).Ok? && ExtractLimit(safParams, maxLimit).Ok?
                       && ExtractAnchorId(safParams, isKsuid).Ok? && FiltersFrom(safParams, order).Ok?
    ensures r.Ok? ==> r.value == SortAndFilterRequest(ExtractSort(safParams).value, FiltersFrom(safParams, order).value,
                                   ExtractLimit(safParams, maxLimit).value, 0, ExtractAnchorId(safParams, isKsuid).value)
    ensures ExtractSort(safParams).Err? ==> r == Err(ExtractSort(safParams).error)
    ensures ExtractSort(safParams).Ok? && ExtractLimit(safParams, maxLimit).Err? ==>
              r == Err(ExtractLimit(safParams, maxLimit).error)
    ensures ExtractSort(safParams).Ok? && ExtractLimit(safParams, maxLimit).Ok? && ExtractAnchorId(safParams, isKsuid).Err? ==>
              r == Err(ExtractAnchorId(safParams, isKsuid).error)
    ensures (ExtractSort(safParams).Ok? && ExtractLimit(safParams, maxLimit).Ok? && ExtractAnchorId(safParams, isKsuid).Ok?
              && FiltersFrom(safParams, order).Err?) ==> r == Err(FiltersFrom(safParams, order).error)
  {
    order := Enumeration(safParams.Keys);
    var sort := ExtractSort(safParams);
    if sort.Err? {
      return Err(sort.error), order;
    }
    var limit := ExtractLimit(safParams, maxLimit);
    if limit.Err? {
      return Err(limit.error), order;
    }
    var anchorId := ExtractAnchorId(safParams, isKsuid);
    if anchorId.Err? {
      return Err(anchorId.error), order;
    }
    var filters;
    filters, order := ExtractFilters(safParams);
    if filters.Err? {
      return Err(filters.error), order;
    }
    r := Ok(SortAndFilterRequest(sort.value, filters.value, limit.value, 0, anchorId.value));
  }
}
