/** What the repositories share (repositories/JobRepositoryHelper.go): the
    merge of an update request into a stored job, with the history entry
    that lists what changed, and the SQL condition built from a filter list. */
module RepositoryHelper {
  import opened Common
  import opened GoStrings
  import opened JobPriorities
  import opened History
  import opened Dto
  import opened Jobs

  // ---- the merge of an update request ----

  /** The fields an update request can change. */
  datatype Field = CorrelationId | Name | Source | Destination | Type | SubType
                 | Action | ActionDetails | ExtraData | Priority | Rank

  /** The name under which the merge records a changed field. */
  function FieldName(f: Field): string
  {
    match f
    case CorrelationId => "CorrelationId"
    case Name => "Name"
    case Source => "Source"
    case Destination => "Destination"
    case Type => "Type"
    case SubType => "SubType"
    case Action => "Action"
    case ActionDetails => "ActionDetails"
    case ExtraData => "ExtraData"
    case Priority => "Priority"
    case Rank => "Rank"
  }

  /** The fields that hold free text on both the request and the job. */
  predicate IsTextField(f: Field)
  {
    f != Priority && f != Rank
  }

  /** Go's string(r) for an int32 r: the one-rune string of code point r, or
      U+FFFD when r is not a Unicode scalar value. This is how the merge
      renders the rank it records. */
  function RuneString(r: Int32): (s: string)
    ensures |s| == 1
    ensures 0 <= r < 0xD800 || 0xE000 <= r < 0x11_0000 ==> s[0] as int == r
  {
    if 0 <= r < 0xD800 || 0xE000 <= r < 0x11_0000 then [r as char] else "\U{FFFD}"
  }

  /** The rank as the audit entry is evidently meant to show it: in decimal. */
  function RankText(r: Int32): (s: string)
    ensures s != ""
    ensures Atoi(s) == Some(r as int)
  {
    AtoiIntToString(r);
    IntToString(r)
  }

  /** The request's text for a field; "" when the request leaves that
      field alone (a zero rank is "not supplied"). */
  function RequestText(req: CreateUpdateJobRequest, f: Field): string
  {
    match f
    case CorrelationId => req.correlationId
    case Name => req.name
    case Source => req.source
    case Destination => req.destination
    case Type => req.jobType
    case SubType => req.subType
    case Action => req.action
    case ActionDetails => req.actionDetails
    case ExtraData => req.extraData
    case Priority => req.priority
    case Rank => if req.rank != 0 then RankText(req.rank) else ""
  }

  /** The job's text for a free-text field. */
  function JobText(j: Job, f: Field): string
    requires IsTextField(f)
  {
    match f
    case CorrelationId => j.correlationId
    case Name => j.name
    case Source => j.source
    case Destination => j.destination
    case Type => j.jobType
    case SubType => j.subType
    case Action => j.action
    case ActionDetails => j.actionDetails
    case ExtraData => j.extraData
  }

  /** `given` when the request supplies it, else the current value. */
  function Prefer(given: string, current: string): string
  {
    if given != "" then given else current
  }

  /** The merged job apart from its history: the stored job with every
      supplied field replaced, the priority resolved by name, the
      modification stamped now and by nobody. Everything else is the
      stored job's. */
  function Merged(oldJob: Job, req: CreateUpdateJobRequest, now: Time): Job
  {
    oldJob.(
      correlationId := Prefer(req.correlationId, oldJob.correlationId),
      name := Prefer(req.name, oldJob.name),
      modifiedAt := now,
      modifiedBy := "",
      source := Prefer(req.source, oldJob.source),
      destination := Prefer(req.destination, oldJob.destination),
      jobType := Prefer(req.jobType, oldJob.jobType),
      subType := Prefer(req.subType, oldJob.subType),
      action := Prefer(req.action, oldJob.action),
      actionDetails := Prefer(req.actionDetails, oldJob.actionDetails),
      extraData := Prefer(req.extraData, oldJob.extraData),
      priority := if req.priority != "" then PriorityIndexOf(req.priority) else oldJob.priority,
      rank := if req.rank != 0 then req.rank else oldJob.rank)
  }

  /** `order` lists the keys of m, each once. */
  ghost predicate IsOrdering(order: seq<Field>, m: map<Field, string>)
  {
    && |order| == |m|
    && (forall i, j :: 0 <= i < j < |order| ==> order[i] != order[j])
    && (forall k :: k in m <==> k in order)
  }

  /** One "key: value; " item of the audit text. */
  function AuditItem(k: string, v: string): string
  {
    k + ": " + v + "; "
  }

  /** The audit items of the keys in `order`, in that order. */
  function AuditItems(order: seq<Field>, m: map<Field, string>): string
    requires forall k :: k in order ==> k in m
    decreases |order|
  {
    if |order| == 0 then ""
    else
      var last := order[|order| - 1];
      AuditItems(order[..|order| - 1], m) + AuditItem(FieldName(last), m[last])
  }

  const AuditPrefix: string := "Job data changed. New Data: "

  /** The history message recording the changes, listed in `order`. */
  function AuditMessage(order: seq<Field>, m: map<Field, string>): string
    requires forall k :: k in order ==> k in m
  {
    AuditPrefix + AuditItems(order, m)
  }

  /** mergeJobs: the stored job with the request's supplied fields merged
      in. When the request supplies anything, one history entry dated now
      lists every supplied field with its new value, in Go's unspecified map
      order, which `order` reports. The rank is recorded in decimal (see
      RuneString for what the source records). */
  method MergeJobs(oldJob: Job, req: CreateUpdateJobRequest, now: Time)
    returns (merged: Job, ghost order: seq<Field>)
    ensures merged.(history := oldJob.history) == Merged(oldJob, req, now)
    ensures IsOrdering(order, Changes(req))
    ensures Changes(req) == map[] ==> merged.history == oldJob.history
    ensures Changes(req) != map[] ==> merged.history == oldJob.history.Add(now, AuditMessage(order, Changes(req)))
  {
    var fields, changed := MergeFields(oldJob, req, now);
    var history := oldJob.history;
    if |changed| > 0 {
      var changedStr;
      changedStr, order := ListChanges(changed);
      history := history.Add(now, "Job data changed. New Data: " + changedStr);
    } else {
      order := [];
      assert changed == map[];
    }
    merged := fields.(history := history);
  }

  /** The field-by-field part of mergeJobs: every field taken from the
      request when supplied, else from the stored job, and every supplied
      field recorded in `changed`. */
  method MergeFields(oldJob: Job, req: CreateUpdateJobRequest, now: Time)
    returns (fields: Job, changed: map<Field, string>)
    ensures fields == Merged(oldJob, req, now)
    ensures changed == Changes(req)
  {
    changed := map[];
    var correlationId, name, source, destination, jobType, subType, action, actionDetails, extraData;
    correlationId, changed := MergeText(CorrelationId, req.correlationId, oldJob.correlationId, changed, req, 0);
    name, changed := MergeText(Name, req.name, oldJob.name, changed, req, 1);
    source, changed := MergeText(Source, req.source, oldJob.source, changed, req, 2);
    destination, changed := MergeText(Destination, req.destination, oldJob.destination, changed, req, 3);
    jobType, changed := MergeText(Type, req.jobType, oldJob.jobType, changed, req, 4);
    subType, changed := MergeText(SubType, req.subType, oldJob.subType, changed, req, 5);
    action, changed := MergeText(Action, req.action, oldJob.action, changed, req, 6);
    actionDetails, changed := MergeText(ActionDetails, req.actionDetails, oldJob.actionDetails, changed, req, 7);
    extraData, changed := MergeText(ExtraData, req.extraData, oldJob.extraData, changed, req, 8);
    var priority, rank;
    priority, changed := MergePriority(req.priority, oldJob.priority, changed, req);
    rank, changed := MergeRank(req.rank, oldJob.rank, changed, req);
    fields := oldJob.(correlationId := correlationId, name := name, modifiedAt := now, modifiedBy := "",
                      source := source, destination := destination, jobType := jobType, subType := subType,
                      action := action, actionDetails := actionDetails,
                      extraData := extraData, priority := priority, rank := rank);
  }

  /** The priority step of mergeJobs: a supplied name is resolved to its
      index (0 when it names no priority) and recorded as given. */
  method MergePriority(given: string, current: PriorityIndex, changed: map<Field, string>,
                       ghost req: CreateUpdateJobRequest)
    returns (priority: PriorityIndex, changed': map<Field, string>)
    requires given == req.priority && changed == ChangesUpTo(req, 9)
    ensures priority == if given != "" then PriorityIndexOf(given) else current
    ensures changed' == ChangesUpTo(req, 10)
  {
    assert FieldAt(9) == Priority;
    priority := current;
    changed' := changed;
    if given != "" {
      priority := PriorityIndexOf(given);
      changed' := changed[Priority := given];
    }
  }

  /** The rank step of mergeJobs: a non-zero rank replaces the stored one
      and is recorded. */
  method MergeRank(given: Int32, current: Int32, changed: map<Field, string>, ghost req: CreateUpdateJobRequest)
    returns (rank: Int32, changed': map<Field, string>)
    requires given == req.rank && changed == ChangesUpTo(req, 10)
    ensures rank == if given != 0 then given else current
    ensures changed' == Changes(req)
  {
    assert FieldAt(10) == Rank;
    rank := current;
    changed' := changed;
    if given != 0 {
      rank := given;
      changed' := changed[Rank := RankText(given)];
    }
  }

  /** The loop of mergeJobs over the changed fields: one "name: value; "
      item per field, in the map's unspecified order, which `order` reports. */
  method ListChanges(changed: map<Field, string>) returns (changedStr: string, ghost order: seq<Field>)
    ensures IsOrdering(order, changed)
    ensures changedStr == AuditItems(order, changed)
  {
    changedStr := "";
    order := [];
    var remaining := changed.Keys;
    while remaining != {}
      invariant forall k :: k in changed <==> k in remaining || k in order
      invariant forall k :: k in remaining ==> k !in order
      invariant |order| + |remaining| == |changed|
      invariant forall i, j :: 0 <= i < j < |order| ==> order[i] != order[j]
      invariant changedStr == AuditItems(order, changed)
    {
      var k := Pick(remaining);
      AuditItemsSnoc(order, k, changed);
      changedStr := changedStr + AuditItem(FieldName(k), changed[k]);
      order := order + [k];
      remaining := remaining - {k};
    }
  }

  lemma AuditItemsSnoc(order: seq<Field>, k: Field, m: map<Field, string>)
    requires forall j :: j in order ==> j in m
    requires k in m
    ensures AuditItems(order + [k], m) == AuditItems(order, m) + AuditItem(FieldName(k), m[k])
  {
    assert (order + [k])[..|order|] == order;
  }

  /** m with field f recorded as changed to `text`, when that is supplied. */
  function Record(m: map<Field, string>, f: Field, text: string): map<Field, string>
  {
    if text != "" then m[f := text] else m
  }

  /** The position of a field in mergeJobs. */
  function Ord(f: Field): (i: nat)
    ensures i < FieldCount
  {
    match f
    case CorrelationId => 0
    case Name => 1
    case Source => 2
    case Destination => 3
    case Type => 4
    case SubType => 5
    case Action => 6
    case ActionDetails => 7
    case ExtraData => 8
    case Priority => 9
    case Rank => 10
  }

  const FieldCount: nat := 11

  /** The field mergeJobs looks at in position i. */
  function FieldAt(i: nat): (f: Field)
    requires i < FieldCount
    ensures Ord(f) == i
  {
    if i == 0 then CorrelationId else if i == 1 then Name else if i == 2 then Source
    else if i == 3 then Destination else if i == 4 then Type else if i == 5 then SubType
    else if i == 6 then Action else if i == 7 then ActionDetails else if i == 8 then ExtraData
    else if i == 9 then Priority else Rank
  }

  /** Every field has its own position. */
  lemma FieldAtOrd(f: Field)
    ensures FieldAt(Ord(f)) == f
  {
  }

  /** The changes among the first `count` fields mergeJobs looks at,
      recorded one field after the other. */
  function ChangesUpTo(req: CreateUpdateJobRequest, count: nat): map<Field, string>
    requires count <= FieldCount
  {
    if count == 0 then map[]
    else
      var f := FieldAt(count - 1);
      Record(ChangesUpTo(req, count - 1), f, RequestText(req, f))
  }

  /** The fields a request supplies, each with the text the merge records. */
  function Changes(req: CreateUpdateJobRequest): map<Field, string>
  {
    ChangesUpTo(req, FieldCount)
  }

  /** After `count` fields, exactly the supplied ones among them are
      recorded, each with the request's text. */
  lemma {:induction false} ChangesUpToMembers(req: CreateUpdateJobRequest, count: nat)
    requires count <= FieldCount
    ensures forall f :: f in ChangesUpTo(req, count) <==> Ord(f) < count && RequestText(req, f) != ""
    ensures forall f :: f in ChangesUpTo(req, count) ==> ChangesUpTo(req, count)[f] == RequestText(req, f)
    decreases count
  {
    if count > 0 {
      ChangesUpToMembers(req, count - 1);
      forall g ensures Ord(g) == count - 1 <==> g == FieldAt(count - 1) {
        FieldAtOrd(g);
      }
    }
  }

  /** A field is among the changes exactly when the request supplies it,
      and then with the request's text. */
  lemma ChangeOf(req: CreateUpdateJobRequest)
    ensures forall f :: f in Changes(req) <==> RequestText(req, f) != ""
    ensures forall f :: f in Changes(req) ==> Changes(req)[f] == RequestText(req, f)
  {
    ChangesUpToMembers(req, FieldCount);
  }

  /** One text field of mergeJobs: the request's text when supplied, and
      then also recorded as changed; else the stored job's text. */
  method MergeText(f: Field, given: string, current: string, changed: map<Field, string>,
                   ghost req: CreateUpdateJobRequest, ghost count: nat)
    returns (value: string, changed': map<Field, string>)
    requires count < FieldCount && FieldAt(count) == f && given == RequestText(req, f)
    requires changed == ChangesUpTo(req, count)
    ensures value == Prefer(given, current)
    ensures changed' == ChangesUpTo(req, count + 1)
  {
    if given != "" {
      value := given;
      changed' := changed[f := given];
    } else {
      value := current;
      changed' := changed;
    }
  }

  /** The merge keeps the job's identity, creation, status and progress, and
      stamps the modification with now and an empty author. */
  lemma MergeKeeps(oldJob: Job, req: CreateUpdateJobRequest, now: Time)
    ensures var m := Merged(oldJob, req, now);
            && m.id == oldJob.id && m.createdAt == oldJob.createdAt && m.createdBy == oldJob.createdBy
            && m.status == oldJob.status && m.progress == oldJob.progress
            && m.modifiedAt == now && m.modifiedBy == ""
  {
  }

  /** Every free-text field of the merged job is the recorded change when the
      request supplies it, and the stored job's text otherwise. */
  lemma MergeAgreesWithChanges(oldJob: Job, req: CreateUpdateJobRequest, now: Time, f: Field)
    requires IsTextField(f)
    ensures f in Changes(req) ==> JobText(Merged(oldJob, req, now), f) == Changes(req)[f]
    ensures f !in Changes(req) ==> JobText(Merged(oldJob, req, now), f) == JobText(oldJob, f)
  {
    ChangeOf(req);
  }

  /** The priority changes exactly when the request names one, to that name's
      index; the rank changes exactly when the request gives a non-zero one,
      and the recorded text reads back as the new rank. */
  lemma MergePriorityAndRank(oldJob: Job, req: CreateUpdateJobRequest, now: Time)
    ensures Priority in Changes(req) ==> Merged(oldJob, req, now).priority == PriorityIndexOf(Changes(req)[Priority])
    ensures Priority !in Changes(req) ==> Merged(oldJob, req, now).priority == oldJob.priority
    ensures Rank in Changes(req) ==> Atoi(Changes(req)[Rank]) == Some(Merged(oldJob, req, now).rank as int)
    ensures Rank !in Changes(req) ==> Merged(oldJob, req, now).rank == oldJob.rank
  {
    ChangeOf(req);
  }

  /** A valid priority name is stored as the index whose name it is. */
  lemma MergeValidPriority(oldJob: Job, req: CreateUpdateJobRequest, now: Time)
    requires req.priority != "" && IsValidPriority(req.priority)
    ensures PriorityName(Merged(oldJob, req, now).priority) == ToLower(req.priority)
  {
    NameIndexRoundTrip(req.priority);
  }

  /** An empty request changes nothing but the modification stamp, and adds
      no history entry. */
  lemma EmptyUpdate(oldJob: Job, now: Time)
    ensures Changes(EmptyRequest) == map[]
    ensures Merged(oldJob, EmptyRequest, now) == oldJob.(modifiedAt := now, modifiedBy := "")
  {
    forall f ensures f !in Changes(EmptyRequest) { }
  }

  /** Merging the same request again changes nothing more. */
  lemma MergeIdempotent(oldJob: Job, req: CreateUpdateJobRequest, now: Time, later: Time)
    ensures Merged(Merged(oldJob, req, now), req, later) == Merged(oldJob, req, later)
  {
  }

  /** No field name holds a ';'. */
  lemma FieldNameWithoutSemicolon(f: Field)
    ensures Count(FieldName(f), ';') == 0
  {
    CountAbsent(FieldName(f), ';');
  }

  /** An audit item holds one ';' more than its value. */
  lemma AuditItemCount(f: Field, v: string)
    ensures Count(AuditItem(FieldName(f), v), ';') == Count(v, ';') + 1
  {
    var k := FieldName(f);
    FieldNameWithoutSemicolon(f);
    CountConcat(k + ": " + v, "; ", ';');
    CountConcat(k + ": ", v, ';');
    CountConcat(k, ": ", ';');
  }

  /** When no recorded value holds ';', the audit items hold exactly one ';'
      per listed field. */
  lemma {:induction false} AuditItemsCount(order: seq<Field>, m: map<Field, string>)
    requires forall k :: k in order ==> k in m && ';' !in m[k]
    ensures Count(AuditItems(order, m), ';') == |order|
    decreases |order|
  {
    if |order| > 0 {
      var last := order[|order| - 1];
      AuditItemsCount(order[..|order| - 1], m);
      CountConcat(AuditItems(order[..|order| - 1], m), AuditItem(FieldName(last), m[last]), ';');
      AuditItemCount(last, m[last]);
      CountAbsent(m[last], ';');
    }
  }

  lemma PrefixOfConcat(a: string, b: string)
    ensures HasPrefix(a + b, a)
  {
    assert (a + b)[..|a|] == a;
  }

  lemma AuditPrefixCount()
    ensures Count(AuditPrefix, ';') == 0
  {
    CountAbsent(AuditPrefix, ';');
  }

  /** The message recording a change starts with the audit prefix, and holds
      one ';' per changed field when the recorded values hold none. */
  lemma AuditMessageShape(order: seq<Field>, m: map<Field, string>)
    requires IsOrdering(order, m)
    requires forall k :: k in m ==> ';' !in m[k]
    ensures HasPrefix(AuditMessage(order, m), AuditPrefix)
    ensures Count(AuditMessage(order, m), ';') == |m|
  {
    var items := AuditItems(order, m);
    AuditItemsCount(order, m);
    AuditPrefixCount();
    CountConcat(AuditPrefix, items, ';');
    PrefixOfConcat(AuditPrefix, items);
  }

  /** The rank the source records (string(int32)) never reads back as that
      rank: a rank of 25 is recorded as the control character U+0019. */
  lemma RuneStringLosesRank(r: Int32)
    ensures Atoi(RuneString(r)) != Some(r as int)
    ensures RuneString(25) == "\U{0019}" && RankText(25) == "25"
  {
    var s := RuneString(r);
    if Atoi(s).Some? {
      assert s[0] != '+' && s[0] != '-';
      assert AllDigits(s);
      assert s[..0] == "";
      assert DigitsValue(s) == s[0] as int - '0' as int;
      assert IsDigit(s[0]);
    }
    assert NatToString(25) == NatToString(2) + [DigitChar(5)];
  }

  // ---- the WHERE clause of a filtered query ----

  /** The SQL of an operator code; an unknown code gives Go's zero value. */
  function SqlOf(operator: string): FilterSql
  {
    if operator in SqlOperatorReplacement then SqlOperatorReplacement[operator] else FilterSql("", "")
  }

  /** One filter as a condition: field, operator and the quoted value put
      into the operator's pattern. */
  function Condition(f: FilterBy): string
  {
    f.field + " " + SqlOf(f.operator).sqlOperator + " '" + SubstitutePlaceholder(SqlOf(f.operator).valueReplace, f.value) + "'"
  }

  function Conditions(filters: seq<FilterBy>): (conds: seq<string>)
    ensures |conds| == |filters|
    ensures forall i :: 0 <= i < |filters| ==> conds[i] == Condition(filters[i])
  {
    seq(|filters|, i requires 0 <= i < |filters| => Condition(filters[i]))
  }

  /** The conditions of all filters joined with " AND ". */
  function WhereClause(filters: seq<FilterBy>): string
  {
    Join(Conditions(filters), " AND ")
  }

  /** Joining one more part appends the separator and the part. */
  lemma {:induction false} JoinSnoc(parts: seq<string>, part: string, sep: string)
    requires |parts| > 0
    ensures Join(parts + [part], sep) == Join(parts, sep) + sep + part
    decreases |parts|
  {
    if |parts| == 1 {
      assert (parts + [part])[1..] == [part];
    } else {
      assert (parts + [part])[1..] == parts[1..] + [part];
      JoinSnoc(parts[1..], part, sep);
    }
  }

  /** constructWhereClause: the conditions written one after the other, with
      " AND " after every one but the last. */
  method ConstructWhereClause(safReq: SortAndFilterRequest) returns (where: string)
    ensures where == WhereClause(safReq.filters)
  {
    var filters := safReq.filters;
    ghost var conds := Conditions(filters);
    where := "";
    var idx := 0;
    while idx < |filters|
      invariant 0 <= idx <= |filters|
      invariant where == Written(conds, idx)
    {
      var sqlFilter := SqlOf(filters[idx].operator);
      var val := SubstitutePlaceholder(sqlFilter.valueReplace, filters[idx].value);
      var cond := filters[idx].field + " " + sqlFilter.sqlOperator + " '" + val + "'";
      assert cond == conds[idx];
      where := where + cond;
      if idx < |filters| - 1 {
        where := where + " AND ";
      }
      WrittenStep(conds, idx);
      idx := idx + 1;
    }
    WrittenAll(conds);
  }

  /** What the builder holds after `count` of the conditions: them joined,
      and " AND " after the last one written unless it is the last of all. */
  function Written(conds: seq<string>, count: nat): string
    requires count <= |conds|
  {
    if count == 0 then ""
    else if count < |conds| then Join(conds[..count], " AND ") + " AND "
    else Join(conds, " AND ")
  }

  lemma WrittenStep(conds: seq<string>, idx: nat)
    requires idx < |conds|
    ensures Written(conds, idx + 1)
            == Written(conds, idx) + conds[idx] + (if idx < |conds| - 1 then " AND " else "")
  {
    if idx == 0 {
      assert conds[..1] == [conds[0]];
    } else {
      assert conds[..idx + 1] == conds[..idx] + [conds[idx]];
      JoinSnoc(conds[..idx], conds[idx], " AND ");
    }
    if idx + 1 == |conds| {
      assert conds[..idx + 1] == conds;
    }
  }

  lemma WrittenAll(conds: seq<string>)
    ensures Written(conds, |conds|) == Join(conds, " AND ")
  {
  }

  /** No filters, no condition. */
  lemma WhereClauseEmpty(filters: seq<FilterBy>)
    requires |filters| == 0
    ensures WhereClause(filters) == ""
  {
  }

  /** A further filter adds " AND " and its condition. */
  lemma WhereClauseAnd(filters: seq<FilterBy>, f: FilterBy)
    requires |filters| > 0
    ensures WhereClause(filters + [f]) == WhereClause(filters) + " AND " + Condition(f)
  {
    assert Conditions(filters + [f]) == Conditions(filters) + [Condition(f)];
    JoinSnoc(Conditions(filters), Condition(f), " AND ");
  }

  /** One filter with a known operator gives "field op 'value'", the value
      wrapped in the operator's pattern. */
  lemma WhereClauseSingle(f: FilterBy)
    requires f.operator in SqlOperatorReplacement
    ensures WhereClause([f]) == f.field + " " + SqlOperatorReplacement[f.operator].sqlOperator + " '"
                                + SubstitutePlaceholder(SqlOperatorReplacement[f.operator].valueReplace, f.value) + "'"
  {
    assert Conditions([f]) == [Condition(f)];
  }
}
