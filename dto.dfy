/** The data transfer objects of the job service (dto/): the request and
    response records and the sort/filter request with its operator table
    (dto/SortAndFilterRequest.go). */
module Dto {
  import opened Common
  import opened GoStrings

  /** A create or update request. Empty strings and a zero rank mean "not
      supplied". */
  datatype CreateUpdateJobRequest = CreateUpdateJobRequest(
    correlationId: string,
    name: string,
    source: string,
    destination: string,
    jobType: string,
    subType: string,
    action: string,
    actionDetails: string,
    extraData: string,
    priority: string,
    rank: Int32)

  /** The request with nothing supplied. */
  const EmptyRequest: CreateUpdateJobRequest := CreateUpdateJobRequest("", "", "", "", "", "", "", "", "", "", 0)

  datatype UpdateJobStatusRequest = UpdateJobStatusRequest(status: string, message: string)

  /** The bodies of dequeue and history requests; their declarations are not
      part of this model, their fields are those the handlers read. */
  datatype DequeueRequest = DequeueRequest(jobType: string)

  datatype UpdateJobHistoryRequest = UpdateJobHistoryRequest(message: string)

  /** A job as the API returns it: names instead of codes, history as text. */
  datatype JobResponse = JobResponse(
    id: string,
    correlationId: string,
    name: string,
    createdAt: Time,
    createdBy: string,
    modifiedAt: Time,
    modifiedBy: string,
    status: string,
    source: string,
    destination: string,
    jobType: string,
    subType: string,
    action: string,
    actionDetails: string,
    progress: Int32,
    history: string,
    extraData: string,
    priority: string,
    rank: Int32)

  datatype SortBy = SortBy(field: string, dir: string)

  /** One filter; its value is held as the string it was parsed from. */
  datatype FilterBy = FilterBy(field: string, operator: string, value: string)

  datatype SortAndFilterRequest = SortAndFilterRequest(
    sorts: SortBy,
    filters: seq<FilterBy>,
    limit: int,
    offset: int,
    anchorId: string)

  /** The SQL operator of a filter code and the pattern its value is put in;
      "@@" in the pattern stands for the value. */
  datatype FilterSql = FilterSql(sqlOperator: string, valueReplace: string)

  /** The filter operator codes. */
  const Operators: seq<string> := ["eq", "neq", "ct", "sw", "ew", "gt", "lt", "gte", "lte"]

  const SqlOperatorReplacement: map<string, FilterSql> := map[
    "eq" := FilterSql("=", "@@"),
    "neq" := FilterSql("!=", "@@"),
    "ct" := FilterSql("LIKE", "%@@%"),
    "sw" := FilterSql("LIKE", "@@%"),
    "ew" := FilterSql("LIKE", "%@@"),
    "gt" := FilterSql(">", "@@"),
    "lt" := FilterSql("<", "@@"),
    "gte" := FilterSql(">=", "@@"),
    "lte" := FilterSql("<=", "@@")
  ]

  /** There are nine distinct operator codes. */
  lemma OperatorsDistinct()
    ensures |Operators| == 9
    ensures forall j, k :: 0 <= j < k < |Operators| ==> Operators[j] != Operators[k]
  {
  }

  /** The replacement table covers exactly the operator codes. */
  lemma ReplacementCoversOperators()
    ensures SqlOperatorReplacement.Keys == set k | 0 <= k < |Operators| :: Operators[k]
  {
    var ops := set k | 0 <= k < |Operators| :: Operators[k];
    assert forall o :: o in ops <==> o in ["eq", "neq", "ct", "sw", "ew", "gt", "lt", "gte", "lte"];
    forall o ensures o in SqlOperatorReplacement.Keys <==> o in ops {
    }
  }

  /** The three string operators use LIKE with the containment, prefix and
      suffix patterns. */
  lemma LikeOperators()
    ensures SqlOperatorReplacement["ct"] == FilterSql("LIKE", "%@@%")
    ensures SqlOperatorReplacement["sw"] == FilterSql("LIKE", "@@%")
    ensures SqlOperatorReplacement["ew"] == FilterSql("LIKE", "%@@")
  {
  }

  /** The six comparison operators insert the value unchanged. */
  lemma ComparisonOperators(value: string)
    ensures forall o :: o in SqlOperatorReplacement && SqlOperatorReplacement[o].sqlOperator != "LIKE"
              ==> SubstitutePlaceholder(SqlOperatorReplacement[o].valueReplace, value) == value
    ensures SqlOperatorReplacement["eq"].sqlOperator == "=" && SqlOperatorReplacement["neq"].sqlOperator == "!="
    ensures SqlOperatorReplacement["gt"].sqlOperator == ">" && SqlOperatorReplacement["lt"].sqlOperator == "<"
    ensures SqlOperatorReplacement["gte"].sqlOperator == ">=" && SqlOperatorReplacement["lte"].sqlOperator == "<="
  {
    assert SubstitutePlaceholder("@@", value) == value + SubstitutePlaceholder("", value);
  }

  /** Every pattern holds exactly one placeholder, so the value appears
      once in the rendered condition. */
  lemma OnePlaceholderEach()
    ensures forall o :: o in SqlOperatorReplacement ==> CountPlaceholders(SqlOperatorReplacement[o].valueReplace) == 1
  {
    assert CountPlaceholders("@@") == 1;
    assert CountPlaceholders("%@@%") == 1;
    assert CountPlaceholders("@@%") == 1;
    assert CountPlaceholders("%@@") == 1;
  }

  /** With one placeholder and no other '@', substitution keeps the text
      around the placeholder: "%@@%" gives "%" + value + "%". */
  lemma LikePatterns(value: string)
    ensures SubstitutePlaceholder("%@@%", value) == "%" + value + "%"
    ensures SubstitutePlaceholder("@@%", value) == value + "%"
    ensures SubstitutePlaceholder("%@@", value) == "%" + value
  {
    assert SubstitutePlaceholder("%", value) == "%";
    assert SubstitutePlaceholder("@@%", value) == value + SubstitutePlaceholder("%", value);
    assert SubstitutePlaceholder("@@", value) == value + SubstitutePlaceholder("", value);
    assert SubstitutePlaceholder("%@@", value) == "%" + SubstitutePlaceholder("@@", value);
    assert SubstitutePlaceholder("%@@%", value) == "%" + SubstitutePlaceholder("@@%", value);
  }
}
