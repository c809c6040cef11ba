/** The state of one `IntegrationsGHGraphQLClient` as a value, and its
    transport. The GraphQL endpoint is replaced by the responses it will give,
    in order: every request takes the next one and is logged. */
module Session {
  import opened Wrappers
  import opened Json
  import opened Models

  /** The constructor's arguments the client keeps (the token only goes into
      the HTTP headers, which are not modelled). */
  datatype Config = Config(org: string, projectNumber: int, repoName: string)

  /** `__base_query_variables`. */
  function BaseVariables(c: Config): map<string, Json> {
    map["org_name" := JStr(c.org), "project_number" := JNum(c.projectNumber), "repo_name" := JStr(c.repoName)]
  }

  /** The GraphQL documents the client sends, by name. The two generated ones
      carry their argument: the items query its `after` cursor as read from
      the previous page, the field mutation its value kind. */
  datatype Document =
    | FieldsQuery
    | ProjectIssuesQuery(after: Json)
    | RepositoryInfoQuery
    | FieldModificationMutation(valueType: string)
    | CreateIssueMutation
    | CreateProjectItemMutation
    | AddCommentMutation
    | SearchIssueQuery

  datatype Request = Request(document: Document, variables: map<string, Json>)

  /** The client's private attributes (`__project_id`,
      `__default_repository_id` and the three caches), together with the
      requests sent so far and the responses still to come. */
  datatype Session = Session(
    config: Config,
    projectId: Json,
    defaultRepositoryId: Json,
    fields: map<string, Field>,
    items: map<string, ProjectItem>,
    contents: map<string, ProjectItem>,
    sent: seq<Request>,
    pending: seq<Json>)
  {
    /** Keys agree with what they index: an item under its own id, and
        under the id of its content. */
    ghost predicate Consistent() {
      KeyedById(items) && KeyedByContent(contents)
    }
  }

  ghost predicate KeyedById(items: map<string, ProjectItem>) {
    forall id :: id in items ==> items[id].id == id && items[id].content.Some?
  }

  ghost predicate KeyedByContent(contents: map<string, ProjectItem>) {
    forall cid :: cid in contents ==> contents[cid].content.Some? && contents[cid].content.value.id == cid
  }

  /** A freshly constructed client: no project id, no repository id, empty caches. */
  function Initial(config: Config, responses: seq<Json>): (s: Session)
    ensures s.Consistent()
    ensures s.config == config && s.projectId == JNull && s.defaultRepositoryId == JNull
    ensures s.fields == map[] && s.items == map[] && s.contents == map[]
    ensures s.sent == [] && s.pending == responses
  {
    Session(config, JNull, JNull, map[], map[], map[], [], responses)
  }

  /** The outcome of an operation: the state it leaves (also when it raises)
      and what it returns or raises. */
  datatype Step<T> = Step(state: Session, result: Result<T>)

  /** `make_request`: the next response answers the request; with none left
      the request fails and nothing is logged. */
  function Send(s: Session, req: Request): (r: Step<Json>)
    ensures r.result.Success? <==> s.pending != []
    ensures r.result.Failure? ==> r == Step(s, Failure(TransportError))
    ensures r.result.Success? ==> r.result.value == s.pending[0]
    ensures r.result.Success? ==> r.state == s.(sent := s.sent + [req], pending := s.pending[1..])
    ensures |r.state.sent| + |r.state.pending| == |s.sent| + |s.pending|
  {
    if s.pending == [] then Step(s, Failure(TransportError))
    else Step(s.(sent := s.sent + [req], pending := s.pending[1..]), Success(s.pending[0]))
  }

  /** Where `k` last occurs in `keys`: a dict filled in list order keeps,
      for each key, the value written at this position. */
  function LastIndex<K(==)>(keys: seq<K>, k: K): (r: Option<nat>)
    ensures r.None? <==> k !in keys
    ensures r.Some? ==> r.value < |keys| && keys[r.value] == k
                        && forall j :: r.value < j < |keys| ==> keys[j] != k
  {
    if keys == [] then None
    else
      var later := LastIndex(keys[1..], k);
      if later.Some? then Some(later.value + 1)
      else if keys[0] == k then Some(0)
      else None
  }

  /** In a list without repeats, every key last occurs where it occurs. */
  lemma LastIndexOfDistinct<K>(keys: seq<K>, i: nat)
    requires i < |keys|
    requires forall a, b :: 0 <= a < b < |keys| ==> keys[a] != keys[b]
    ensures LastIndex(keys, keys[i]) == Some(i)
  {
    assert keys[i] in keys;
  }
}
