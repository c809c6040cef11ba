/** The pydantic records of the client and their construction from keyword
    arguments (a decoded JSON object). A construction succeeds exactly when
    every required key is present with a value of the declared type; keys the
    record does not declare are ignored. */
module Models {
  import opened Wrappers
  import opened Json

  datatype SingleSelectOption = SingleSelectOption(id: string, name: string, description: Option<string>)

  /** `BaseField` and its subclass `SingleSelectProjectField`. */
  datatype Field =
    | BaseField(id: string, name: string)
    | SingleSelectProjectField(id: string, name: string, options: seq<SingleSelectOption>)

  /** `BaseContent` (id, body, title) and its three subclasses. */
  datatype Content =
    | DraftIssueContent(id: string, body: string, title: string)
    | IssueContent(id: string, body: string, title: string, number: int, state: string)
    | PullRequestContent(id: string, body: string, title: string, number: int)

  /** The plain dict stored per field name in `ProjectItem.fields`; its
      values are copied from the response without any check. */
  datatype FieldValue = FieldValue(name: Json, value: Json, filedId: Json, valueId: Json)

  /** `ProjectItem`. `content`, `project_id`, `repository_id` and `fields`
      are assigned after construction, which pydantic does not validate, so
      the project and repository ids are kept as the raw JSON assigned. */
  datatype ProjectItem = ProjectItem(
    id: string,
    itemType: string,
    content: Option<Content>,
    projectId: Json,
    repositoryId: Json,
    fields: Option<map<Json, FieldValue>>)

  predicate HasStr(m: map<string, Json>, key: string) {
    key in m && m[key].JStr?
  }

  predicate HasInt(m: map<string, Json>, key: string) {
    key in m && m[key].JNum?
  }

  /** A required `Optional[str]`: present, and null or a string. */
  predicate HasNullableStr(m: map<string, Json>, key: string) {
    key in m && (m[key].JNull? || m[key].JStr?)
  }

  /** An `Optional[str] = None`: absent, null or a string. */
  predicate AcceptsOptionalStr(m: map<string, Json>, key: string) {
    key !in m || m[key].JNull? || m[key].JStr?
  }

  function RequiredStr(m: map<string, Json>, key: string): (r: Result<string>)
    ensures r.Success? <==> HasStr(m, key)
    ensures r.Success? ==> r.value == m[key].s
  {
    if HasStr(m, key) then Success(m[key].s) else Failure(ValidationError)
  }

  function RequiredInt(m: map<string, Json>, key: string): (r: Result<int>)
    ensures r.Success? <==> HasInt(m, key)
    ensures r.Success? ==> r.value == m[key].n
  {
    if HasInt(m, key) then Success(m[key].n) else Failure(ValidationError)
  }

  function NullableStr(m: map<string, Json>, key: string): (r: Result<Option<string>>)
    ensures r.Success? <==> HasNullableStr(m, key)
    ensures r.Success? ==> r.value == if m[key].JStr? then Some(m[key].s) else None
  {
    if key !in m then Failure(ValidationError)
    else match m[key]
      case JNull => Success(None)
      case JStr(s) => Success(Some(s))
      case _ => Failure(ValidationError)
  }

  /** The value an `Optional[str] = None` field takes: the given string or
      null, JNull when the key is absent. */
  function OptionalStr(m: map<string, Json>, key: string): (r: Result<Json>)
    ensures r.Success? <==> AcceptsOptionalStr(m, key)
    ensures r.Success? ==> r.value == if key in m then m[key] else JNull
  {
    if key !in m then Success(JNull)
    else if m[key].JNull? || m[key].JStr? then Success(m[key])
    else Failure(ValidationError)
  }

  predicate ValidOption(j: Json) {
    j.JObj? && HasStr(j.members, "id") && HasStr(j.members, "name") && HasNullableStr(j.members, "description")
  }

  /** `SingleSelectOption(**j)`. */
  function ParseOption(j: Json): (r: Result<SingleSelectOption>)
    ensures r.Success? <==> ValidOption(j)
    ensures r.Success? ==> r.value.id == j.members["id"].s && r.value.name == j.members["name"].s
    ensures r.Success? ==> r.value.description == if j.members["description"].JStr? then Some(j.members["description"].s) else None
  {
    match j
    case JObj(m) =>
      var id :- RequiredStr(m, "id");
      var name :- RequiredStr(m, "name");
      var description :- NullableStr(m, "description");
      Success(SingleSelectOption(id, name, description))
    case _ => Failure(ValidationError)
  }

  /** `List[SingleSelectOption]`: every element must be a valid option; the
      order is kept. */
  function ParseOptions(js: seq<Json>): (r: Result<seq<SingleSelectOption>>)
    ensures r.Success? <==> forall i :: 0 <= i < |js| ==> ValidOption(js[i])
    ensures r.Success? ==> |r.value| == |js| && forall i :: 0 <= i < |js| ==> Success(r.value[i]) == ParseOption(js[i])
  {
    if js == [] then Success([])
    else
      var head :- ParseOption(js[0]);
      var tail :- ParseOptions(js[1..]);
      Success([head] + tail)
  }

  /** `BaseField(**m)`: the `__typename` annotation is a private attribute
      in pydantic 2, so only `id` and `name` are required. */
  function ParseBaseField(m: map<string, Json>): (r: Result<Field>)
    ensures r.Success? <==> HasStr(m, "id") && HasStr(m, "name")
    ensures r.Success? ==> r.value == BaseField(m["id"].s, m["name"].s)
  {
    var id :- RequiredStr(m, "id");
    var name :- RequiredStr(m, "name");
    Success(BaseField(id, name))
  }

  /** `SingleSelectProjectField(**m)`: a base field plus an ordered option list. */
  function ParseSingleSelectField(m: map<string, Json>): (r: Result<Field>)
    ensures r.Success? <==>
      && HasStr(m, "id") && HasStr(m, "name") && "options" in m && m["options"].JArr?
      && forall i :: 0 <= i < |m["options"].elems| ==> ValidOption(m["options"].elems[i])
    ensures r.Success? ==>
      && r.value.SingleSelectProjectField?
      && r.value.id == m["id"].s && r.value.name == m["name"].s
      && ParseOptions(m["options"].elems) == Success(r.value.options)
  {
    var id :- RequiredStr(m, "id");
    var name :- RequiredStr(m, "name");
    if "options" in m && m["options"].JArr? then
      var options :- ParseOptions(m["options"].elems);
      Success(SingleSelectProjectField(id, name, options))
    else
      Failure(ValidationError)
  }

  predicate HasBaseContent(m: map<string, Json>) {
    HasStr(m, "id") && HasStr(m, "body") && HasStr(m, "title")
  }

  /** `DraftIssueContent(**m)`: exactly the base content. */
  function ParseDraftIssue(m: map<string, Json>): (r: Result<Content>)
    ensures r.Success? <==> HasBaseContent(m)
    ensures r.Success? ==> r.value == DraftIssueContent(m["id"].s, m["body"].s, m["title"].s)
  {
    var id :- RequiredStr(m, "id");
    var body :- RequiredStr(m, "body");
    var title :- RequiredStr(m, "title");
    Success(DraftIssueContent(id, body, title))
  }

  /** `IssueContent(**m)`: the base content plus `number` and `state`. */
  function ParseIssue(m: map<string, Json>): (r: Result<Content>)
    ensures r.Success? <==> HasBaseContent(m) && HasInt(m, "number") && HasStr(m, "state")
    ensures r.Success? ==> r.value == IssueContent(m["id"].s, m["body"].s, m["title"].s, m["number"].n, m["state"].s)
  {
    var id :- RequiredStr(m, "id");
    var body :- RequiredStr(m, "body");
    var title :- RequiredStr(m, "title");
    var number :- RequiredInt(m, "number");
    var state :- RequiredStr(m, "state");
    Success(IssueContent(id, body, title, number, state))
  }

  /** `PullRequestContent(**m)`: the base content plus `number`, no `state`. */
  function ParsePullRequest(m: map<string, Json>): (r: Result<Content>)
    ensures r.Success? <==> HasBaseContent(m) && HasInt(m, "number")
    ensures r.Success? ==> r.value == PullRequestContent(m["id"].s, m["body"].s, m["title"].s, m["number"].n)
  {
    var id :- RequiredStr(m, "id");
    var body :- RequiredStr(m, "body");
    var title :- RequiredStr(m, "title");
    var number :- RequiredInt(m, "number");
    Success(PullRequestContent(id, body, title, number))
  }

  predicate AcceptsProjectItem(m: map<string, Json>) {
    && HasStr(m, "id") && HasStr(m, "type")
    && AcceptsOptionalStr(m, "project_id") && AcceptsOptionalStr(m, "repository_id")
    && ("fields" !in m || m["fields"].JNull? || m["fields"].JObj?)
  }

  /** `ProjectItem(**m)` as the client calls it, on an item dict whose
      `content` has been popped: `id` and `type` are required strings, the
      other fields default to None. A `fields` dict given here is only
      checked for its shape, since the client overwrites it before reading
      it (as it does `project_id`). */
  function ParseProjectItem(m: map<string, Json>): (r: Result<ProjectItem>)
    requires "content" !in m
    ensures r.Success? <==> AcceptsProjectItem(m)
    ensures r.Success? ==>
      && r.value.id == m["id"].s && r.value.itemType == m["type"].s
      && r.value.content == None && r.value.fields == None
      && r.value.projectId == (if "project_id" in m then m["project_id"] else JNull)
      && r.value.repositoryId == (if "repository_id" in m then m["repository_id"] else JNull)
  {
    var id :- RequiredStr(m, "id");
    var itemType :- RequiredStr(m, "type");
    var projectId :- OptionalStr(m, "project_id");
    var repositoryId :- OptionalStr(m, "repository_id");
    if "fields" in m && !(m["fields"].JNull? || m["fields"].JObj?) then Failure(ValidationError)
    else Success(ProjectItem(id, itemType, None, projectId, repositoryId, None))
  }
}
