/** The operations built on the caches: `initialize`, the field setters,
    `create_issue`, `create_comment` and `serach_issues`. Each checks its
    inputs and the field cache before it sends anything. */
module ProjectActions {
  import opened Wrappers
  import opened Json
  import opened Models
  import opened Session
  import opened ProjectFields
  import opened ProjectItems
  import opened ProjectIssues

  /** jmespath paths of the ids read from mutation and query responses. */
  const RepositoryIdPath: seq<string> := ["data", "organization", "repository", "id"]
  const NewIssueIdPath: seq<string> := ["data", "createIssue", "issue", "id"]
  const NewItemIdPath: seq<string> := ["data", "addProjectV2ItemById", "item", "id"]

  /** `initialize`: the field cache, then the item cache, each loaded unless
      already filled, then the default repository id read from the
      repository query. */
  function Initialize(s: Session): (r: Step<()>)
    ensures r.state.config == s.config
    ensures |r.state.sent| + |r.state.pending| == |s.sent| + |s.pending|
    ensures r.state.fields == LoadFields(s, false).state.fields
    ensures LoadFields(s, false).result.Failure? ==> r == Step(LoadFields(s, false).state, Failure(LoadFields(s, false).result.error))
    ensures LoadFields(s, false).result.Success? ==>
      && r.state.projectId == LoadItems(LoadFields(s, false).state, false).state.projectId
      && r.state.items == LoadItems(LoadFields(s, false).state, false).state.items
      && r.state.contents == LoadItems(LoadFields(s, false).state, false).state.contents
    ensures r.result.Success? <==>
      && LoadFields(s, false).result.Success?
      && LoadItems(LoadFields(s, false).state, false).result.Success?
      && LoadItems(LoadFields(s, false).state, false).state.pending != []
    ensures r.result.Success? ==>
      var loaded := LoadItems(LoadFields(s, false).state, false).state;
      && r.state.sent == loaded.sent + [Request(RepositoryInfoQuery, BaseVariables(s.config))]
      && r.state.pending == loaded.pending[1..]
      && r.state.defaultRepositoryId == Search(RepositoryIdPath, loaded.pending[0])
  {
    var fields := LoadFields(s, false);
    if fields.result.Failure? then Step(fields.state, Failure(fields.result.error))
    else
      var items := LoadItems(fields.state, false);
      if items.result.Failure? then Step(items.state, Failure(items.result.error))
      else
        var repo := Send(items.state, Request(RepositoryInfoQuery, BaseVariables(s.config)));
        match repo.result
        case Failure(e) => Step(repo.state, Failure(e))
        case Success(response) => Step(repo.state.(defaultRepositoryId := Search(RepositoryIdPath, response)), Success(()))
  }

  /** With both caches already filled, `initialize` sends the repository
      query alone and takes the default repository id from its answer. */
  lemma InitializeWarm(s: Session)
    requires s.fields != map[] && s.items != map[] && s.pending != []
    ensures Initialize(s) == Step(
      s.(defaultRepositoryId := Search(RepositoryIdPath, s.pending[0]),
         sent := s.sent + [Request(RepositoryInfoQuery, BaseVariables(s.config))],
         pending := s.pending[1..]),
      Success(()))
  {
    FieldsCacheHit(s);
  }

  /** Whatever the caches hold, a successful `initialize` has consumed a
      run of the answers, and the default repository id comes from the
      last of them, the answer to the repository query. */
  lemma InitializeRepositoryAnswer(s: Session)
    ensures var r := Initialize(s);
      var n := |s.pending| - |r.state.pending|;
      r.result.Success? ==>
        && 0 < n <= |s.pending| && r.state.pending == s.pending[n..]
        && r.state.defaultRepositoryId == Search(RepositoryIdPath, s.pending[n - 1])
  {
    var fields := LoadFields(s, false);
    if fields.result.Success? {
      var loaded := LoadItems(fields.state, false);
      if loaded.result.Success? && loaded.state.pending != [] {
        FieldsConsumeSuffix(s);
        ItemsConsumeSuffix(fields.state);
        RepositoryAnswerLast(s, fields.state, loaded.state, Initialize(s).state);
      }
    }
  }

  /** The answers of the two loads, then the repository answer. */
  lemma RepositoryAnswerLast(s: Session, f: Session, l: Session, r: Session)
    requires |f.pending| <= |s.pending| && f.pending == s.pending[|s.pending| - |f.pending|..]
    requires |l.pending| <= |f.pending| && l.pending == f.pending[|f.pending| - |l.pending|..]
    requires l.pending != [] && r.pending == l.pending[1..]
    requires r.defaultRepositoryId == Search(RepositoryIdPath, l.pending[0])
    ensures var n := |s.pending| - |r.pending|;
      && 0 < n <= |s.pending| && r.pending == s.pending[n..]
      && r.defaultRepositoryId == Search(RepositoryIdPath, s.pending[n - 1])
  {
    LastOfRun(s.pending, f.pending, l.pending, r.pending);
  }

  /** Loading the fields consumes the first answers, in order. */
  lemma FieldsConsumeSuffix(s: Session)
    ensures var t := LoadFields(s, false).state;
      |t.pending| <= |s.pending| && t.pending == s.pending[|s.pending| - |t.pending|..]
  {
    if s.fields != map[] {
      FieldsCacheHit(s);
      assert s.pending[0..] == s.pending;
    } else if s.pending != [] {
      FieldsRebuilt(s, false);
    } else {
      assert s.pending[0..] == s.pending;
    }
  }

  /** So does loading the items. */
  lemma ItemsConsumeSuffix(s: Session)
    ensures var t := LoadItems(s, false).state;
      |t.pending| <= |s.pending| && t.pending == s.pending[|s.pending| - |t.pending|..]
  {
    if s.items == map[] {
      LoadItemsPages(s, false);
    } else {
      assert s.pending[0..] == s.pending;
    }
  }

  /** Two runs of answers consumed, then one more: the last answer
      consumed is the one before those left. */
  lemma LastOfRun<T>(p: seq<T>, q: seq<T>, t: seq<T>, u: seq<T>)
    requires |q| <= |p| && q == p[|p| - |q|..]
    requires |t| <= |q| && t == q[|q| - |t|..]
    requires t != [] && u == t[1..]
    ensures var n := |p| - |u|;
      0 < n <= |p| && u == p[n..] && t[0] == p[n - 1]
  {
    assert t == p[|p| - |t|..];
  }

  /** On a fresh client, with both caches empty, a successful `initialize`
      has sent the fields query, then the first page request without a
      cursor, and last the repository query; the field cache is rebuilt from
      the first answer, the project id comes from the second, and the
      default repository id from the last answer consumed. */
  lemma InitializeCold(s: Session)
    requires s.fields == map[] && s.items == map[]
    ensures var r := Initialize(s);
      var n := |s.pending| - |r.state.pending|;
      r.result.Success? ==>
        && 3 <= n <= |s.pending| && r.state.pending == s.pending[n..]
        && |r.state.sent| == |s.sent| + n && s.sent <= r.state.sent
        && r.state.sent[|s.sent|] == Request(FieldsQuery, BaseVariables(s.config))
        && r.state.sent[|s.sent| + 1] == PageRequest(s.config, JNull)
        && r.state.sent[|s.sent| + n - 1] == Request(RepositoryInfoQuery, BaseVariables(s.config))
        && Iterate(Search(FieldNodesPath, s.pending[0]), TypeError).Success?
        && r.state.fields == RegisterFields(map[], Iterate(Search(FieldNodesPath, s.pending[0]), TypeError).value).acc
        && r.state.projectId == Search(ProjectPath + ["id"], s.pending[1])
        && r.state.defaultRepositoryId == Search(RepositoryIdPath, s.pending[n - 1])
  {
    var r := Initialize(s);
    if r.result.Success? {
      var fields := LoadFields(s, false);
      FieldsRebuilt(s, false);
      var loaded := LoadItems(fields.state, false);
      LoadItemsPages(fields.state, false);
      ColdSequence(s, fields.state, loaded, r.state);
    }
  }

  /** The requests and answers of a fields load, then a paged item load,
      then one more request, laid end to end. */
  lemma ColdSequence(s: Session, f: Session, l: Step<map<string, ProjectItem>>, r: Session)
    requires s.pending != [] && f.config == s.config
    requires f.sent == s.sent + [Request(FieldsQuery, BaseVariables(s.config))] && f.pending == s.pending[1..]
    requires Paged(f, l) && l.result.Success? && l.state.pending != []
    requires r.sent == l.state.sent + [Request(RepositoryInfoQuery, BaseVariables(s.config))]
    requires r.pending == l.state.pending[1..]
    ensures var n := |s.pending| - |r.pending|;
      && 3 <= n <= |s.pending| && r.pending == s.pending[n..]
      && |r.sent| == |s.sent| + n && s.sent <= r.sent
      && r.sent[|s.sent|] == Request(FieldsQuery, BaseVariables(s.config))
      && r.sent[|s.sent| + 1] == PageRequest(s.config, JNull)
      && r.sent[|s.sent| + n - 1] == Request(RepositoryInfoQuery, BaseVariables(s.config))
      && f.pending[0] == s.pending[1] && l.state.pending[0] == s.pending[n - 1]
  {
    var m := |f.pending| - |l.state.pending|;
    assert l.state.pending == s.pending[m + 1..];
    assert r.pending == s.pending[m + 2..];
    assert s.sent <= f.sent <= l.state.sent <= r.sent;
    assert r.sent[|s.sent|] == f.sent[|s.sent|];
    assert r.sent[|s.sent| + 1] == l.state.sent[|f.sent|];
  }

  /** `initialize` keeps both caches consistent and the cached items in the
      project of the current project id. */
  lemma InitializeInvariant(s: Session)
    ensures s.Consistent() ==> Initialize(s).state.Consistent()
    ensures ItemsOfProject(s) || s.items == map[] ==> ItemsOfProject(Initialize(s).state)
  {
    var fields := LoadFields(s, false);
    if fields.result.Success? {
      LoadItemsInvariant(fields.state, false);
    }
  }

  /** The `for opt in column.options` search: the position of the first
      option with the given name. */
  function FirstOptionNamed(options: seq<SingleSelectOption>, name: string): (r: Option<nat>)
    ensures r.None? <==> forall i :: 0 <= i < |options| ==> options[i].name != name
    ensures r.Some? ==>
      && r.value < |options| && options[r.value].name == name
      && forall i :: 0 <= i < r.value ==> options[i].name != name
  {
    if options == [] then None
    else if options[0].name == name then Some(0)
    else match FirstOptionNamed(options[1..], name)
      case None => None
      case Some(k) => Some(k + 1)
  }

  /** A column that exists, is a single-select field and has the option. */
  predicate Selectable(fields: map<string, Field>, columnName: string, optionName: string) {
    && columnName in fields && fields[columnName].SingleSelectProjectField?
    && FirstOptionNamed(fields[columnName].options, optionName).Some?
  }

  /** The option an update selects: the first of the column's options with
      the name. */
  function ChosenOption(fields: map<string, Field>, columnName: string, optionName: string): SingleSelectOption
    requires Selectable(fields, columnName, optionName)
  {
    fields[columnName].options[FirstOptionNamed(fields[columnName].options, optionName).value]
  }

  /** The single-select update for an item: the project, the item, the
      column's field id and the chosen option's id. */
  function SelectRequest(s: Session, columnName: string, optionName: string, issueId: Json): Request
    requires Selectable(s.fields, columnName, optionName)
  {
    Request(FieldModificationMutation("single_select"),
      map["project_id" := s.projectId, "item_id" := issueId,
          "field_id" := JStr(s.fields[columnName].id),
          "option_id" := JStr(ChosenOption(s.fields, columnName, optionName).id)])
  }

  /** `__set_single_select_field`. A column missing from the field cache
      raises ValueError; a column that is not single-select has no
      `options`. An unknown option builds a ValueError without raising it,
      and the update then fails on reading `id` of None. All three happen
      before any request. */
  function SetSingleSelectField(s: Session, columnName: string, optionName: string, issueId: Json): (r: Step<()>)
    ensures columnName !in s.fields ==> r == Step(s, Failure(ValueError("Incorrect column name: " + columnName)))
    ensures columnName in s.fields && !s.fields[columnName].SingleSelectProjectField? ==>
      r == Step(s, Failure(AttributeError("options")))
    ensures (columnName in s.fields && s.fields[columnName].SingleSelectProjectField?
             && FirstOptionNamed(s.fields[columnName].options, optionName).None?) ==>
      r == Step(s, Failure(AttributeError("id")))
    ensures r.result.Success? <==> Selectable(s.fields, columnName, optionName) && s.pending != []
    ensures Selectable(s.fields, columnName, optionName) && s.pending != [] ==>
      r.state == s.(sent := s.sent + [SelectRequest(s, columnName, optionName, issueId)], pending := s.pending[1..])
    ensures Selectable(s.fields, columnName, optionName) && s.pending == [] ==> r == Step(s, Failure(TransportError))
  {
    if columnName !in s.fields then Step(s, Failure(ValueError("Incorrect column name: " + columnName)))
    else
      var column := s.fields[columnName];
      if !column.SingleSelectProjectField? then Step(s, Failure(AttributeError("options")))
      else match FirstOptionNamed(column.options, optionName)
        case None => Step(s, Failure(AttributeError("id")))
        case Some(_) =>
          var sent := Send(s, SelectRequest(s, columnName, optionName, issueId));
          Step(sent.state, if sent.result.Failure? then Failure(sent.result.error) else Success(()))
  }

  /** The text update for an item: the project, the item, the field id and
      the text. */
  function TextRequest(s: Session, issueId: Json, fieldName: string, fieldValue: string): Request
    requires fieldName in s.fields
  {
    Request(FieldModificationMutation("text"),
      map["project_id" := s.projectId, "item_id" := issueId,
          "field_id" := JStr(s.fields[fieldName].id), "text" := JStr(fieldValue)])
  }

  /** `set_text_field`: a field missing from the field cache raises
      ValueError before any request; any cached field, single-select or
      not, can be given a text. */
  function SetTextField(s: Session, issueId: Json, fieldName: string, fieldValue: string): (r: Step<()>)
    ensures fieldName !in s.fields ==> r == Step(s, Failure(ValueError("No such field: " + fieldName)))
    ensures r.result.Success? <==> fieldName in s.fields && s.pending != []
    ensures fieldName in s.fields && s.pending != [] ==>
      r.state == s.(sent := s.sent + [TextRequest(s, issueId, fieldName, fieldValue)], pending := s.pending[1..])
    ensures fieldName in s.fields && s.pending == [] ==> r == Step(s, Failure(TransportError))
  {
    if fieldName !in s.fields then Step(s, Failure(ValueError("No such field: " + fieldName)))
    else
      var sent := Send(s, TextRequest(s, issueId, fieldName, fieldValue));
      Step(sent.state, if sent.result.Failure? then Failure(sent.result.error) else Success(()))
  }

  /** `set_issue_status`: the single-select update of the `Status` column. */
  function SetIssueStatus(s: Session, issueId: Json, status: string): (r: Step<()>)
    ensures "Status" !in s.fields ==> r == Step(s, Failure(ValueError("Incorrect column name: " + "Status")))
    ensures r.result.Success? <==> Selectable(s.fields, "Status", status) && s.pending != []
    ensures r.result.Success? ==>
      r.state == s.(sent := s.sent + [SelectRequest(s, "Status", status, issueId)], pending := s.pending[1..])
  {
    SetSingleSelectField(s, "Status", status, issueId)
  }

  /** `set_issue_platform`: the single-select update of the `Platform` column. */
  function SetIssuePlatform(s: Session, issueId: Json, platformName: string): (r: Step<()>)
    ensures "Platform" !in s.fields ==> r == Step(s, Failure(ValueError("Incorrect column name: " + "Platform")))
    ensures r.result.Success? <==> Selectable(s.fields, "Platform", platformName) && s.pending != []
    ensures r.result.Success? ==>
      r.state == s.(sent := s.sent + [SelectRequest(s, "Platform", platformName, issueId)], pending := s.pending[1..])
  {
    SetSingleSelectField(s, "Platform", platformName, issueId)
  }

  /** `repository_id or self.__default_repository_id`. */
  function ChosenRepository(repositoryId: Option<string>, default: Json): (r: Json)
    ensures repositoryId.Some? && repositoryId.value != "" ==> r == JStr(repositoryId.value)
    ensures r != default ==> repositoryId.Some? && repositoryId.value != ""
  {
    if repositoryId.Some? && repositoryId.value != "" then JStr(repositoryId.value) else default
  }

  function CreateIssueRequest(repoId: Json, title: string, body: string): Request {
    Request(CreateIssueMutation, map["repository_id" := repoId, "title" := JStr(title), "body" := JStr(body)])
  }

  function AddItemRequest(projectId: Json, newIssueId: Json): Request {
    Request(CreateProjectItemMutation, map["project_id" := projectId, "github_item_id" := newIssueId])
  }

  /** `create_issue`: the title, then the body, must be non-empty; then the
      issue is created in the given repository (the default one when none
      or an empty one is given), added to the project, and given the
      initial status. The new issue id and the new item id are returned. */
  function CreateIssue(s: Session, title: string, body: string, initialStatus: string := "Todo",
                       repositoryId: Option<string> := None): (r: Step<(Json, Json)>)
    ensures title == "" ==> r == Step(s, Failure(ValueError("Issue title cannot be empty string")))
    ensures title != "" && body == "" ==> r == Step(s, Failure(ValueError("Issue body cannot be empty string")))
    ensures r.state == s.(sent := r.state.sent, pending := r.state.pending)
    ensures |r.state.sent| + |r.state.pending| == |s.sent| + |s.pending|
  {
    var repoId := ChosenRepository(repositoryId, s.defaultRepositoryId);
    if title == "" then Step(s, Failure(ValueError("Issue title cannot be empty string")))
    else if body == "" then Step(s, Failure(ValueError("Issue body cannot be empty string")))
    else
      var created := Send(s, CreateIssueRequest(repoId, title, body));
      match created.result
      case Failure(e) => Step(created.state, Failure(e))
      case Success(response) =>
        var newIssueId := Search(NewIssueIdPath, response);
        var added := Send(created.state, AddItemRequest(s.projectId, newIssueId));
        match added.result
        case Failure(e) => Step(added.state, Failure(e))
        case Success(response) =>
          var itemId := Search(NewItemIdPath, response);
          var status := SetIssueStatus(added.state, itemId, initialStatus);
          Step(status.state, if status.result.Failure? then Failure(status.result.error) else Success((newIssueId, itemId)))
  }

  /** A complete `create_issue` sends three requests in order: the issue,
      then the project item for the issue id the first answer gave, then the
      status update of the item id the second answer gave. It returns those
      two ids. */
  lemma CreateIssueSends(s: Session, title: string, body: string, initialStatus: string, repositoryId: Option<string>)
    requires title != "" && body != "" && |s.pending| >= 3
    requires Selectable(s.fields, "Status", initialStatus)
    ensures var r := CreateIssue(s, title, body, initialStatus, repositoryId);
      var newIssueId := Search(NewIssueIdPath, s.pending[0]);
      var itemId := Search(NewItemIdPath, s.pending[1]);
      && r.result == Success((newIssueId, itemId))
      && r.state.pending == s.pending[3..]
      && r.state.sent == s.sent + [
           CreateIssueRequest(ChosenRepository(repositoryId, s.defaultRepositoryId), title, body),
           AddItemRequest(s.projectId, newIssueId),
           SelectRequest(s, "Status", initialStatus, itemId)]
  {
    var created := Send(s, CreateIssueRequest(ChosenRepository(repositoryId, s.defaultRepositoryId), title, body)).state;
    var added := Send(created, AddItemRequest(s.projectId, Search(NewIssueIdPath, s.pending[0]))).state;
    assert added.fields == s.fields && added.projectId == s.projectId;
    assert added.pending == s.pending[2..] && added.pending[1..] == s.pending[3..];
  }

  /** The issue is created and added to the project before the status is
      looked up: with no such status option the call fails, after two
      requests that are not undone. */
  lemma CreateIssueUnknownStatus(s: Session, title: string, body: string, initialStatus: string, repositoryId: Option<string>)
    requires title != "" && body != "" && |s.pending| >= 2
    requires !Selectable(s.fields, "Status", initialStatus)
    ensures var r := CreateIssue(s, title, body, initialStatus, repositoryId);
      && r.result.Failure?
      && r.state.pending == s.pending[2..]
      && r.state.sent == s.sent + [
           CreateIssueRequest(ChosenRepository(repositoryId, s.defaultRepositoryId), title, body),
           AddItemRequest(s.projectId, Search(NewIssueIdPath, s.pending[0]))]
  {
    var created := Send(s, CreateIssueRequest(ChosenRepository(repositoryId, s.defaultRepositoryId), title, body)).state;
    var added := Send(created, AddItemRequest(s.projectId, Search(NewIssueIdPath, s.pending[0]))).state;
    assert added.fields == s.fields;
    assert added.pending == s.pending[2..];
  }

  /** An explicit non-empty repository id is used; no id, or an empty one,
      falls back to the default repository id. */
  lemma RepositoryFallback(repositoryId: Option<string>, default: Json)
    ensures repositoryId.Some? && repositoryId.value != "" ==> ChosenRepository(repositoryId, default) == JStr(repositoryId.value)
    ensures repositoryId == None || repositoryId == Some("") ==> ChosenRepository(repositoryId, default) == default
  {
  }

  function CommentRequest(body: string, itemId: string): Request {
    Request(AddCommentMutation, map["github_item_id" := JStr(itemId), "body" := JStr(body)])
  }

  /** `create_comment`: the item id is checked before the body; the answer
      to the comment mutation is returned. */
  function CreateComment(s: Session, body: string, itemId: string): (r: Step<Json>)
    ensures itemId == "" ==> r == Step(s, Failure(ValueError("Item ID cannot be empty string")))
    ensures itemId != "" && body == "" ==> r == Step(s, Failure(ValueError("Comment body cannot be empty string")))
    ensures r.result.Success? <==> itemId != "" && body != "" && s.pending != []
    ensures r.result.Success? ==>
      && r.result.value == s.pending[0]
      && r.state == s.(sent := s.sent + [CommentRequest(body, itemId)], pending := s.pending[1..])
  {
    if itemId == "" then Step(s, Failure(ValueError("Item ID cannot be empty string")))
    else if body == "" then Step(s, Failure(ValueError("Comment body cannot be empty string")))
    else Send(s, CommentRequest(body, itemId))
  }

  /** The search text: the query restricted to the open issues of the
      client's default repository. */
  function SearchText(c: Config, query: string): (r: string)
    ensures |query| <= |r| && r[..|query|] == query
    ensures r[|query|..] == " repo:" + c.org + "/" + c.repoName + " state:open"
  {
    query + (" repo:" + c.org + "/" + c.repoName + " state:open")
  }

  /** `serach_issues`: an empty query is rejected before any request;
      otherwise the search query is sent and its answer returned. */
  function SearchIssues(s: Session, query: string): (r: Step<Json>)
    ensures query == "" ==> r == Step(s, Failure(ValueError("Query cannot be empty string")))
    ensures r.result.Success? <==> query != "" && s.pending != []
    ensures r.result.Success? ==>
      && r.result.value == s.pending[0]
      && r.state == s.(sent := s.sent + [Request(SearchIssueQuery, map["query" := JStr(SearchText(s.config, query))])],
                       pending := s.pending[1..])
  {
    if query == "" then Step(s, Failure(ValueError("Query cannot be empty string")))
    else Send(s, Request(SearchIssueQuery, map["query" := JStr(SearchText(s.config, query))]))
  }
}
