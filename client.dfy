/** `IntegrationsGHGraphQLClient` as an object: its private attributes are
    fields that the methods update in place, and every method is proved to
    leave the object in the state, and to return the result, that the
    functions over `Session` values prescribe. */
module GraphQLClient {
  import opened Wrappers
  import opened Json
  import opened Models
  import opened Session
  import opened ProjectFields
  import opened ProjectItems
  import opened ProjectIssues
  import opened ProjectActions

  /** The loop over `item_data['fieldValues']['nodes']`: the repository id
      and the field dict, updated node by node. */
  method ResolveFieldValueNodes(repositoryId: Json, nodes: seq<Json>) returns (r: Result<(Json, map<Json, FieldValue>)>)
    ensures r == ResolveFieldValues(repositoryId, map[], nodes)
  {
    var repo := repositoryId;
    var fields: map<Json, FieldValue> := map[];
    var i := 0;
    while i < |nodes|
      invariant 0 <= i <= |nodes|
      invariant ResolveFieldValues(repo, fields, nodes[i..]) == ResolveFieldValues(repositoryId, map[], nodes)
    {
      assert nodes[i..][1..] == nodes[i + 1..];
      var next := FieldValueStep(repo, fields, nodes[i]);
      if next.Failure? {
        return Failure(next.error);
      }
      repo, fields := next.value.0, next.value.1;
      i := i + 1;
    }
    assert nodes[i..] == [];
    return Success((repo, fields));
  }

  /** The body of the item loop of `parse_project_items` up to the caches:
      the content popped and resolved, the item built, its project id set
      and its field values read. */
  method ParseItemData(projectId: Json, itemData: Json) returns (r: Result<ProjectItem>)
    ensures r == ParseItem(projectId, itemData)
  {
    var popped := Pop(itemData, "content", JObj(map[]));
    if popped.Failure? {
      return Failure(popped.error);
    }
    var (contentData, rest) := popped.value;
    var content := ResolveContent(contentData);
    if content.Failure? {
      return Failure(content.error);
    }
    var item := ParseProjectItem(rest.members);
    if item.Failure? {
      return Failure(item.error);
    }
    var fieldValues := Index(rest, "fieldValues");
    if fieldValues.Failure? {
      return Failure(fieldValues.error);
    }
    var valueNodes := Index(fieldValues.value, "nodes");
    if valueNodes.Failure? {
      return Failure(valueNodes.error);
    }
    var nodes := Iterate(valueNodes.value, AttributeError("get"));
    if nodes.Failure? {
      return Failure(nodes.error);
    }
    var resolved := ResolveFieldValueNodes(item.value.repositoryId, nodes.value);
    if resolved.Failure? {
      return Failure(resolved.error);
    }
    return Success(item.value.(content := Some(content.value), projectId := projectId,
                               repositoryId := resolved.value.0, fields := Some(resolved.value.1)));
  }

  /** The `for opt in column.options` loop, which stops at the first option
      with the name. */
  method FindOption(options: seq<SingleSelectOption>, name: string) returns (r: Option<nat>)
    ensures r == FirstOptionNamed(options, name)
  {
    var i := 0;
    while i < |options|
      invariant 0 <= i <= |options|
      invariant forall j :: 0 <= j < i ==> options[j].name != name
    {
      if options[i].name == name {
        return Some(i);
      }
      i := i + 1;
    }
    return None;
  }

  class IntegrationsGHGraphQLClient {
    const config: Config
    var projectId: Json
    var defaultRepositoryId: Json
    var fieldsCache: map<string, Field>
    var issuesCache: map<string, ProjectItem>
    var issuesContentCache: map<string, ProjectItem>
    /** The transport: the requests sent so far, and the answers to come. */
    var sent: seq<Request>
    var pending: seq<Json>

    /** The object's state as a value. */
    function Snapshot(): Session
      reads this
    {
      Session(config, projectId, defaultRepositoryId, fieldsCache, issuesCache, issuesContentCache, sent, pending)
    }

    constructor (organizationName: string, projectNumber: int, defaultRepositoryName: string, responses: seq<Json>)
      ensures Snapshot() == Initial(Config(organizationName, projectNumber, defaultRepositoryName), responses)
    {
      config := Config(organizationName, projectNumber, defaultRepositoryName);
      projectId := JNull;
      defaultRepositoryId := JNull;
      issuesCache := map[];
      issuesContentCache := map[];
      fieldsCache := map[];
      sent := [];
      pending := responses;
    }

    /** `make_request`. */
    method MakeRequest(req: Request) returns (r: Result<Json>)
      modifies this
      ensures Snapshot() == Send(old(Snapshot()), req).state && r == Send(old(Snapshot()), req).result
    {
      if pending == [] {
        return Failure(TransportError);
      }
      r := Success(pending[0]);
      sent := sent + [req];
      pending := pending[1..];
    }

    /** `get_project_fields`. */
    method GetProjectFields(reload: bool) returns (r: Result<map<string, Field>>)
      modifies this
      ensures Snapshot() == LoadFields(old(Snapshot()), reload).state && r == LoadFields(old(Snapshot()), reload).result
    {
      if fieldsCache != map[] && !reload {
        return Success(fieldsCache);
      }
      fieldsCache := map[];
      var rawData := MakeRequest(Request(FieldsQuery, BaseVariables(config)));
      if rawData.Failure? {
        return Failure(rawData.error);
      }
      var nodes := Iterate(Search(FieldNodesPath, rawData.value), TypeError);
      if nodes.Failure? {
        return Failure(nodes.error);
      }
      ghost var base := Snapshot();
      ghost var goal := RegisterFields(map[], nodes.value);
      var i := 0;
      while i < |nodes.value|
        invariant 0 <= i <= |nodes.value|
        invariant Snapshot() == base.(fields := fieldsCache)
        invariant RegisterFields(fieldsCache, nodes.value[i..]) == goal
      {
        assert nodes.value[i..][1..] == nodes.value[i + 1..];
        var field := ClassifyField(nodes.value[i]);
        if field.Failure? {
          return Failure(field.error);
        }
        fieldsCache := fieldsCache[field.value.name := field.value];
        i := i + 1;
      }
      assert nodes.value[i..] == [];
      return Success(fieldsCache);
    }

    /** `parse_project_items`: every item node parsed and stored under its
        id and under its content's id, in order. */
    method ParseProjectItems(payload: Json) returns (r: Result<()>)
      modifies this
      ensures Snapshot() == ParsePage(old(Snapshot()), payload).state && r == ParsePage(old(Snapshot()), payload).result
    {
      var items := Index(payload, "items");
      if items.Failure? {
        return Failure(items.error);
      }
      var nodes := Index(items.value, "nodes");
      if nodes.Failure? {
        return Failure(nodes.error);
      }
      var elems := Iterate(nodes.value, AttributeError("pop"));
      if elems.Failure? {
        return Failure(elems.error);
      }
      ghost var base := Snapshot();
      ghost var goal := IndexItems(base, elems.value);
      var i := 0;
      while i < |elems.value|
        invariant 0 <= i <= |elems.value|
        invariant Snapshot() == base.(items := issuesCache, contents := issuesContentCache)
        invariant StoreParsed(Snapshot(), ParseEach(projectId, elems.value[i..])) == goal
      {
        StoreParsedFirst(Snapshot(), elems.value[i..]);
        assert elems.value[i..][1..] == elems.value[i + 1..];
        var item := ParseItemData(projectId, elems.value[i]);
        if item.Failure? {
          return Failure(item.error);
        }
        Remember(item.value);
        i := i + 1;
      }
      assert elems.value[i..] == [];
      return Success(());
    }

    /** The two cache writes at the end of each turn of the item loop. */
    method Remember(item: ProjectItem)
      requires item.content.Some?
      modifies this
      ensures Snapshot() == Store(old(Snapshot()), item)
    {
      issuesCache := issuesCache[item.id := item];
      issuesContentCache := issuesContentCache[item.content.value.id := item];
    }

    /** The page handling shared by the first page and the loop:
        `parse_project_data`, `page_info`, then `parse_project_items`. */
    method ReadPage(rawData: Json) returns (r: Result<Json>)
      modifies this
      ensures Snapshot() == ProjectIssues.ReadPage(old(Snapshot()), rawData).state
      ensures r == ProjectIssues.ReadPage(old(Snapshot()), rawData).result
    {
      var projectData := Search(ProjectPath, rawData);
      var pageInfo := PageInfoOf(projectData);
      if pageInfo.Failure? {
        return Failure(pageInfo.error);
      }
      var parsed := ParseProjectItems(projectData);
      if parsed.Failure? {
        return Failure(parsed.error);
      }
      return pageInfo;
    }

    /** `get_project_issues`: the first page, requested without a cursor,
        sets the project id; then a page is requested after the end cursor
        of the last one for as long as it says there is a next page. */
    method GetProjectIssues(reload: bool) returns (r: Result<map<string, ProjectItem>>)
      modifies this
      ensures Snapshot() == LoadItems(old(Snapshot()), reload).state && r == LoadItems(old(Snapshot()), reload).result
      ensures old(issuesCache) != map[] && !reload ==> r == Success(old(issuesCache)) && Snapshot() == old(Snapshot())
    {
      if issuesCache != map[] && !reload {
        return Success(issuesCache);
      }
      issuesCache := map[];
      ghost var goal := LoadItems(old(Snapshot()), reload);
      ghost var first := FirstPage(Snapshot());
      var rawData := MakeRequest(PageRequest(config, JNull));
      if rawData.Failure? {
        return Failure(rawData.error);
      }
      var id := Index(Search(ProjectPath, rawData.value), "id");
      if id.Failure? {
        return Failure(id.error);
      }
      projectId := id.value;
      var pageInfo := ReadPage(rawData.value);
      if pageInfo.Failure? {
        return Failure(pageInfo.error);
      }
      assert Snapshot() == first.state && pageInfo == first.result;
      var info := pageInfo.value;
      while true
        invariant FetchPages(Snapshot(), info) == goal
        decreases |pending|
      {
        var hasNextPage := Index(info, "hasNextPage");
        if hasNextPage.Failure? {
          return Failure(hasNextPage.error);
        }
        if !Truthy(hasNextPage.value) {
          break;
        }
        var cursor := Index(info, "endCursor");
        if cursor.Failure? {
          return Failure(cursor.error);
        }
        ghost var next := NextPage(Snapshot(), cursor.value);
        rawData := MakeRequest(PageRequest(config, cursor.value));
        if rawData.Failure? {
          return Failure(rawData.error);
        }
        pageInfo := ReadPage(rawData.value);
        if pageInfo.Failure? {
          return Failure(pageInfo.error);
        }
        assert Snapshot() == next.state && pageInfo == next.result;
        info := pageInfo.value;
      }
      return Success(issuesCache);
    }

    /** `get_project_content_issues`. */
    method GetProjectContentIssues(reload: bool) returns (r: Result<map<string, ProjectItem>>)
      modifies this
      ensures Snapshot() == LoadContentItems(old(Snapshot()), reload).state
      ensures r == LoadContentItems(old(Snapshot()), reload).result
      ensures reload ==> (r.Success? <==> LoadItems(old(Snapshot()), true).result.Success?)
    {
      if reload {
        var loaded := GetProjectIssues(true);
        if loaded.Failure? {
          return Failure(loaded.error);
        }
      }
      return Success(issuesContentCache);
    }

    /** `initialize`. */
    method Initialize() returns (r: Result<()>)
      modifies this
      ensures Snapshot() == ProjectActions.Initialize(old(Snapshot())).state
      ensures r == ProjectActions.Initialize(old(Snapshot())).result
    {
      var fields := GetProjectFields(false);
      if fields.Failure? {
        return Failure(fields.error);
      }
      var items := GetProjectIssues(false);
      if items.Failure? {
        return Failure(items.error);
      }
      var repositoryData := MakeRequest(Request(RepositoryInfoQuery, BaseVariables(config)));
      if repositoryData.Failure? {
        return Failure(repositoryData.error);
      }
      defaultRepositoryId := Search(RepositoryIdPath, repositoryData.value);
      return Success(());
    }

    /** `__set_single_select_field`. */
    method SetSingleSelectField(columnName: string, optionName: string, issueId: Json) returns (r: Result<()>)
      modifies this
      ensures Snapshot() == ProjectActions.SetSingleSelectField(old(Snapshot()), columnName, optionName, issueId).state
      ensures r == ProjectActions.SetSingleSelectField(old(Snapshot()), columnName, optionName, issueId).result
    {
      if columnName !in fieldsCache {
        return Failure(ValueError("Incorrect column name: " + columnName));
      }
      var column := fieldsCache[columnName];
      if !column.SingleSelectProjectField? {
        return Failure(AttributeError("options"));
      }
      var option := FindOption(column.options, optionName);
      if option.None? {
        return Failure(AttributeError("id"));
      }
      var variables := map["project_id" := projectId, "item_id" := issueId,
                           "field_id" := JStr(column.id), "option_id" := JStr(column.options[option.value].id)];
      var response := MakeRequest(Request(FieldModificationMutation("single_select"), variables));
      if response.Failure? {
        return Failure(response.error);
      }
      return Success(());
    }

    /** `set_text_field`. */
    method SetTextField(issueId: Json, fieldName: string, fieldValue: string) returns (r: Result<()>)
      modifies this
      ensures Snapshot() == ProjectActions.SetTextField(old(Snapshot()), issueId, fieldName, fieldValue).state
      ensures r == ProjectActions.SetTextField(old(Snapshot()), issueId, fieldName, fieldValue).result
    {
      if fieldName !in fieldsCache {
        return Failure(ValueError("No such field: " + fieldName));
      }
      var variables := map["project_id" := projectId, "item_id" := issueId,
                           "field_id" := JStr(fieldsCache[fieldName].id), "text" := JStr(fieldValue)];
      var response := MakeRequest(Request(FieldModificationMutation("text"), variables));
      if response.Failure? {
        return Failure(response.error);
      }
      return Success(());
    }

    /** `set_issue_status`. */
    method SetIssueStatus(issueId: Json, status: string) returns (r: Result<()>)
      modifies this
      ensures Snapshot() == ProjectActions.SetIssueStatus(old(Snapshot()), issueId, status).state
      ensures r == ProjectActions.SetIssueStatus(old(Snapshot()), issueId, status).result
    {
      r := SetSingleSelectField("Status", status, issueId);
    }

    /** `set_issue_platform`. */
    method SetIssuePlatform(issueId: Json, platformName: string) returns (r: Result<()>)
      modifies this
      ensures Snapshot() == ProjectActions.SetIssuePlatform(old(Snapshot()), issueId, platformName).state
      ensures r == ProjectActions.SetIssuePlatform(old(Snapshot()), issueId, platformName).result
    {
      r := SetSingleSelectField("Platform", platformName, issueId);
    }

    /** `create_issue`. */
    method CreateIssue(title: string, body: string, initialStatus: string := "Todo", repositoryId: Option<string> := None)
      returns (r: Result<(Json, Json)>)
      modifies this
      ensures Snapshot() == ProjectActions.CreateIssue(old(Snapshot()), title, body, initialStatus, repositoryId).state
      ensures r == ProjectActions.CreateIssue(old(Snapshot()), title, body, initialStatus, repositoryId).result
    {
      var repoId := if repositoryId.Some? && repositoryId.value != "" then JStr(repositoryId.value) else defaultRepositoryId;
      if title == "" {
        return Failure(ValueError("Issue title cannot be empty string"));
      }
      if body == "" {
        return Failure(ValueError("Issue body cannot be empty string"));
      }
      var variables := map["repository_id" := repoId, "title" := JStr(title), "body" := JStr(body)];
      var response := MakeRequest(Request(CreateIssueMutation, variables));
      if response.Failure? {
        return Failure(response.error);
      }
      var newIssueId := Search(NewIssueIdPath, response.value);
      variables := map["project_id" := projectId, "github_item_id" := newIssueId];
      response := MakeRequest(Request(CreateProjectItemMutation, variables));
      if response.Failure? {
        return Failure(response.error);
      }
      var projectItemId := Search(NewItemIdPath, response.value);
      var status := SetIssueStatus(projectItemId, initialStatus);
      if status.Failure? {
        return Failure(status.error);
      }
      return Success((newIssueId, projectItemId));
    }

    /** `create_comment`. */
    method CreateComment(body: string, itemId: string) returns (r: Result<Json>)
      modifies this
      ensures Snapshot() == ProjectActions.CreateComment(old(Snapshot()), body, itemId).state
      ensures r == ProjectActions.CreateComment(old(Snapshot()), body, itemId).result
    {
      if itemId == "" {
        return Failure(ValueError("Item ID cannot be empty string"));
      }
      if body == "" {
        return Failure(ValueError("Comment body cannot be empty string"));
      }
      var variables := map["github_item_id" := JStr(itemId), "body" := JStr(body)];
      r := MakeRequest(Request(AddCommentMutation, variables));
    }

    /** `serach_issues`. */
    method SearchIssues(query: string) returns (r: Result<Json>)
      modifies this
      ensures Snapshot() == ProjectActions.SearchIssues(old(Snapshot()), query).state
      ensures r == ProjectActions.SearchIssues(old(Snapshot()), query).result
    {
      if query == "" {
        return Failure(ValueError("Query cannot be empty string"));
      }
      var variables := map["query" := JStr(SearchText(config, query))];
      r := MakeRequest(Request(SearchIssueQuery, variables));
    }
  }
}
