/** `parse_project_items`: one page of project item nodes, each turned into
    a `ProjectItem` with its content and field values, and stored in the
    item cache under its id and in the content cache under its content's id. */
module ProjectItems {
  import opened Wrappers
  import opened Json
  import opened Models
  import opened Session

  const RepositoryValueTypename: string := "ProjectV2ItemFieldRepositoryValue"
  const SingleSelectValueTypename: string := "ProjectV2ItemFieldSingleSelectValue"

  /** `m.get('__typename')`. */
  function TypenameOf(m: map<string, Json>): Json {
    if "__typename" in m then m["__typename"] else JNull
  }

  /** The content record chosen by the content's `__typename`: a draft, an
      issue, and anything else is taken for a pull request. */
  function ResolveContent(contentData: Json): (r: Result<Content>)
    ensures !contentData.JObj? ==> r == Failure(AttributeError("get"))
    ensures contentData.JObj? ==>
      var m := contentData.members;
      r == if TypenameOf(m) == JStr("DraftIssue") then ParseDraftIssue(m)
           else if TypenameOf(m) == JStr("Issue") then ParseIssue(m)
           else ParsePullRequest(m)
    ensures contentData.JObj? && !HasBaseContent(contentData.members) ==> r == Failure(ValidationError)
    ensures r.Success? ==>
      && contentData.JObj? && r.value.id == contentData.members["id"].s
      && (r.value.DraftIssueContent? <==> TypenameOf(contentData.members) == JStr("DraftIssue"))
      && (r.value.IssueContent? <==> TypenameOf(contentData.members) == JStr("Issue"))
  {
    var typeName :- Get(contentData, "__typename");
    if typeName == JStr("DraftIssue") then ParseDraftIssue(contentData.members)
    else if typeName == JStr("Issue") then ParseIssue(contentData.members)
    else ParsePullRequest(contentData.members)
  }

  predicate IsRepositoryValue(node: Json) {
    node.JObj? && TypenameOf(node.members) == JStr(RepositoryValueTypename)
  }

  /** Where a field value node keeps its value: `name` for a single-select
      value, `text` otherwise. */
  function ValueKey(node: Json): string {
    if node.JObj? && TypenameOf(node.members) == JStr(SingleSelectValueTypename) then "name" else "text"
  }

  /** The name a field value is recorded under. */
  function FieldNameOf(node: Json): Json {
    Search(["field", "name"], node)
  }

  /** The dict recorded for a field value node. */
  function ValueRecord(node: Json): FieldValue {
    FieldValue(FieldNameOf(node), Search([ValueKey(node)], node), Search(["field", "id"], node), Search(["id"], node))
  }

  /** A field value node the loop body gets through without raising: a
      repository value with `repository.id`, or any other value with
      `field.name`, `field.id`, its value key and `id`, whose field name can
      be a dict key. */
  predicate ValueAccepted(node: Json) {
    && node.JObj?
    && var m := node.members;
    if IsRepositoryValue(node) then
      "repository" in m && m["repository"].JObj? && "id" in m["repository"].members
    else
      && "field" in m && m["field"].JObj? && "name" in m["field"].members && "id" in m["field"].members
      && ValueKey(node) in m && "id" in m
      && Hashable(m["field"].members["name"])
  }

  /** One field value node. A repository value replaces the item's
      repository id; any other value is recorded under its field's name,
      its value taken from `name` for a single-select value and from `text`
      otherwise. */
  function FieldValueStep(repo: Json, fields: map<Json, FieldValue>, node: Json): (r: Result<(Json, map<Json, FieldValue>)>)
    ensures r.Success? <==> ValueAccepted(node)
    ensures r.Success? && IsRepositoryValue(node) ==>
      r.value == (Search(["repository", "id"], node), fields)
    ensures r.Success? && !IsRepositoryValue(node) ==>
      r.value == (repo, fields[FieldNameOf(node) := ValueRecord(node)])
    ensures node.JObj? && !IsRepositoryValue(node) && "field" !in node.members ==> r == Failure(KeyError("field"))
  {
    var typeName :- Get(node, "__typename");
    if typeName == JStr(RepositoryValueTypename) then
      var repository :- Index(node, "repository");
      var id :- Index(repository, "id");
      Success((id, fields))
    else
      var field :- Index(node, "field");
      var fieldName :- Index(field, "name");
      var value :- Index(node, if typeName == JStr(SingleSelectValueTypename) then "name" else "text");
      var fieldId :- Index(field, "id");
      var valueId :- Index(node, "id");
      if !Hashable(fieldName) then Failure(TypeError)
      else
        assert Search(["name"], field) == fieldName;
        assert FieldNameOf(node) == fieldName;
        assert Search([ValueKey(node)], node) == value;
        assert Search(["field", "id"], node) == fieldId;
        assert Search(["id"], node) == valueId;
        Success((repo, fields[fieldName := FieldValue(fieldName, value, fieldId, valueId)]))
  }

  /** Each recorded field value is filed under its own name. */
  ghost predicate KeyedByName(fields: map<Json, FieldValue>) {
    forall k :: k in fields ==> fields[k].name == k
  }

  /** The loop over `fieldValues.nodes`, any failure aborting it. */
  function ResolveFieldValues(repo: Json, fields: map<Json, FieldValue>, nodes: seq<Json>): (r: Result<(Json, map<Json, FieldValue>)>)
    ensures r.Success? <==> forall i :: 0 <= i < |nodes| ==> ValueAccepted(nodes[i])
    ensures r.Success? ==> fields.Keys <= r.value.1.Keys
    ensures r.Success? && KeyedByName(fields) ==> KeyedByName(r.value.1)
    ensures r.Success? && (forall i :: 0 <= i < |nodes| ==> !IsRepositoryValue(nodes[i])) ==> r.value.0 == repo
    ensures r.Success? && (forall i :: 0 <= i < |nodes| ==> IsRepositoryValue(nodes[i])) ==> r.value.1 == fields
    decreases |nodes|
  {
    if nodes == [] then Success((repo, fields))
    else
      var next :- FieldValueStep(repo, fields, nodes[0]);
      ResolveFieldValues(next.0, next.1, nodes[1..])
  }

  /** The name each node is recorded under; none for a repository value. */
  function ValueKeys(nodes: seq<Json>): (r: seq<Option<Json>>)
    ensures |r| == |nodes|
    ensures forall i :: 0 <= i < |nodes| ==> r[i] == if IsRepositoryValue(nodes[i]) then None else Some(FieldNameOf(nodes[i]))
  {
    seq(|nodes|, i requires 0 <= i < |nodes| => if IsRepositoryValue(nodes[i]) then None else Some(FieldNameOf(nodes[i])))
  }

  /** Which nodes are repository values. */
  function RepositoryMarks(nodes: seq<Json>): (r: seq<bool>)
    ensures |r| == |nodes| && forall i :: 0 <= i < |nodes| ==> r[i] == IsRepositoryValue(nodes[i])
  {
    seq(|nodes|, i requires 0 <= i < |nodes| => IsRepositoryValue(nodes[i]))
  }

  /** Over nodes the body accepts, the loop completes, and the repository
      id is that of the last repository value (the one it started with when
      there is none). */
  lemma {:induction false} ResolveRepositoryLastWins(repo: Json, fields: map<Json, FieldValue>, nodes: seq<Json>)
    requires forall i :: 0 <= i < |nodes| ==> ValueAccepted(nodes[i])
    ensures var r := ResolveFieldValues(repo, fields, nodes);
      && r.Success?
      && r.value.0 == match LastIndex(RepositoryMarks(nodes), true)
                      case None => repo
                      case Some(i) => Search(["repository", "id"], nodes[i])
    decreases |nodes|
  {
    if nodes != [] {
      var next := FieldValueStep(repo, fields, nodes[0]).value;
      assert RepositoryMarks(nodes[1..]) == RepositoryMarks(nodes)[1..];
      ResolveRepositoryLastWins(next.0, next.1, nodes[1..]);
    }
  }

  /** Over nodes the body accepts, each field name maps to the record of the
      last node with that name, the entries the loop started with surviving
      only under other names. */
  lemma {:induction false} ResolveFieldsLastWins(repo: Json, fields: map<Json, FieldValue>, nodes: seq<Json>)
    requires forall i :: 0 <= i < |nodes| ==> ValueAccepted(nodes[i])
    ensures var r := ResolveFieldValues(repo, fields, nodes);
      && r.Success?
      && (forall k :: k in r.value.1 <==> k in fields || Some(k) in ValueKeys(nodes))
      && (forall k :: k in r.value.1 ==>
            r.value.1[k] == match LastIndex(ValueKeys(nodes), Some(k))
                            case None => fields[k]
                            case Some(i) => ValueRecord(nodes[i]))
  {
    ResolveFieldsWriteAll(repo, fields, nodes);
    WriteAllLastWins(fields, ValueKeys(nodes), ValueRecords(nodes));
  }

  /** The record each node would be filed as. */
  function ValueRecords(nodes: seq<Json>): (r: seq<FieldValue>)
    ensures |r| == |nodes| && forall i :: 0 <= i < |nodes| ==> r[i] == ValueRecord(nodes[i])
  {
    seq(|nodes|, i requires 0 <= i < |nodes| => ValueRecord(nodes[i]))
  }

  /** `m[keys[i]] = vals[i]` in list order, skipping the positions without
      a key. */
  function WriteAll<K(==), V>(m: map<K, V>, keys: seq<Option<K>>, vals: seq<V>): map<K, V>
    requires |keys| == |vals|
    decreases |keys|
  {
    if keys == [] then m
    else WriteAll(if keys[0].Some? then m[keys[0].value := vals[0]] else m, keys[1..], vals[1..])
  }

  /** After the writes, each key holds the value of its last write, and the
      other entries are the ones the map started with. */
  lemma {:induction false} WriteAllLastWins<K, V>(m: map<K, V>, keys: seq<Option<K>>, vals: seq<V>)
    requires |keys| == |vals|
    ensures forall k :: k in WriteAll(m, keys, vals) <==> k in m || Some(k) in keys
    ensures forall k :: k in WriteAll(m, keys, vals) ==>
      WriteAll(m, keys, vals)[k] == match LastIndex(keys, Some(k))
                                    case None => m[k]
                                    case Some(i) => vals[i]
    decreases |keys|
  {
    if keys != [] {
      var m' := if keys[0].Some? then m[keys[0].value := vals[0]] else m;
      WriteAllLastWins(m', keys[1..], vals[1..]);
      assert forall x :: x in keys <==> x == keys[0] || x in keys[1..];
    }
  }

  /** Over accepted nodes, the field-value loop performs exactly those
      writes. */
  lemma {:induction false} ResolveFieldsWriteAll(repo: Json, fields: map<Json, FieldValue>, nodes: seq<Json>)
    requires forall i :: 0 <= i < |nodes| ==> ValueAccepted(nodes[i])
    ensures var r := ResolveFieldValues(repo, fields, nodes);
      r.Success? && r.value.1 == WriteAll(fields, ValueKeys(nodes), ValueRecords(nodes))
    decreases |nodes|
  {
    if nodes != [] {
      var next := FieldValueStep(repo, fields, nodes[0]).value;
      assert ValueKeys(nodes[1..]) == ValueKeys(nodes)[1..];
      assert ValueRecords(nodes[1..]) == ValueRecords(nodes)[1..];
      ResolveFieldsWriteAll(next.0, next.1, nodes[1..]);
    }
  }

  /** `item_data['fieldValues']['nodes']`. */
  function ValueNodes(itemData: Json): Json {
    Search(["fieldValues", "nodes"], itemData)
  }

  /** An item node the loop body gets through: a content that resolves, an
      item record that builds from the rest, and a list of field value nodes
      that are all accepted. */
  predicate ItemAccepted(itemData: Json) {
    && itemData.JObj?
    && var m := itemData.members;
    && "content" in m && ResolveContent(m["content"]).Success?
    && AcceptsProjectItem(m - {"content"})
    && var nodes := Iterate(ValueNodes(itemData), AttributeError("get"));
    && nodes.Success?
    && forall i :: 0 <= i < |nodes.value| ==> ValueAccepted(nodes.value[i])
  }

  /** One item node: its content is popped and resolved first (a missing
      content is taken as an empty one), then the item record is built from
      what remains, given the client's project id and an empty field dict,
      and the field values are read, starting from the item's own
      `repository_id`. */
  function ParseItem(projectId: Json, itemData: Json): (r: Result<ProjectItem>)
    ensures r.Success? <==> ItemAccepted(itemData)
    ensures r.Success? ==>
      var m := itemData.members;
      var nodes := Iterate(ValueNodes(itemData), AttributeError("get")).value;
      var resolved := ResolveFieldValues(if "repository_id" in m then m["repository_id"] else JNull, map[], nodes).value;
      r.value == ProjectItem(m["id"].s, m["type"].s, Some(ResolveContent(m["content"]).value), projectId, resolved.0, Some(resolved.1))
    ensures r.Success? ==> KeyedByName(r.value.fields.value)
  {
    var popped :- Pop(itemData, "content", JObj(map[]));
    var content :- ResolveContent(popped.0);
    var item :- ParseProjectItem(popped.1.members);
    var fieldValues :- Index(popped.1, "fieldValues");
    var valueNodes :- Index(fieldValues, "nodes");
    var nodes :- Iterate(valueNodes, AttributeError("get"));
    var resolved :- ResolveFieldValues(item.repositoryId, map[], nodes);
    Success(item.(content := Some(content), projectId := projectId, repositoryId := resolved.0, fields := Some(resolved.1)))
  }

  /** An item node without content falls through to the pull-request record,
      which the empty content cannot satisfy. */
  lemma MissingContentFails(projectId: Json, itemData: Json)
    requires itemData.JObj? && "content" !in itemData.members
    ensures ParseItem(projectId, itemData) == Failure(ValidationError)
  {
    assert ResolveContent(JObj(map[])) == Failure(ValidationError);
  }

  /** What parsing guarantees of the items it yields in a project. */
  ghost predicate ParsedIn(projectId: Json, parsed: seq<Result<ProjectItem>>) {
    forall i :: 0 <= i < |parsed| && parsed[i].Success? ==>
      parsed[i].value.content.Some? && parsed[i].value.projectId == projectId
  }

  /** Every node of a page parsed on its own: one result per node, and
      every item parsed has a content and the client's project id. */
  function ParseEach(projectId: Json, nodes: seq<Json>): (r: seq<Result<ProjectItem>>)
    ensures |r| == |nodes| && ParsedIn(projectId, r)
  {
    if nodes == [] then [] else [ParseItem(projectId, nodes[0])] + ParseEach(projectId, nodes[1..])
  }

  /** The result for each node is that node parsed on its own, in order. */
  lemma {:induction false} ParseEachAt(projectId: Json, nodes: seq<Json>, i: nat)
    requires i < |nodes|
    ensures ParseEach(projectId, nodes)[i] == ParseItem(projectId, nodes[i])
    decreases i
  {
    if i > 0 {
      ParseEachAt(projectId, nodes[1..], i - 1);
    }
  }

  predicate AllParsed(parsed: seq<Result<ProjectItem>>) {
    forall i :: 0 <= i < |parsed| ==> parsed[i].Success?
  }

  function Values(parsed: seq<Result<ProjectItem>>): (r: seq<ProjectItem>)
    requires AllParsed(parsed)
    ensures |r| == |parsed| && forall i :: 0 <= i < |parsed| ==> parsed[i] == Success(r[i])
  {
    seq(|parsed|, i requires 0 <= i < |parsed| => parsed[i].value)
  }

  function Ids(items: seq<ProjectItem>): (r: seq<string>)
    ensures |r| == |items| && forall i :: 0 <= i < |items| ==> r[i] == items[i].id
  {
    seq(|items|, i requires 0 <= i < |items| => items[i].id)
  }

  /** The content ids of items that all have a content. */
  function ContentIds(items: seq<ProjectItem>): (r: seq<string>)
    requires forall i :: 0 <= i < |items| ==> items[i].content.Some?
    ensures |r| == |items| && forall i :: 0 <= i < |items| ==> r[i] == items[i].content.value.id
  {
    seq(|items|, i requires 0 <= i < |items| => items[i].content.value.id)
  }

  /** `__issues_cache[item.id] = item` and `__issues_content_cache[content.id] = item`. */
  function Store(s: Session, item: ProjectItem): (r: Session)
    requires item.content.Some?
    ensures s.Consistent() ==> r.Consistent()
    ensures r == s.(items := r.items, contents := r.contents)
    ensures r.items.Keys == s.items.Keys + {item.id} && r.contents.Keys == s.contents.Keys + {item.content.value.id}
    ensures r.items[item.id] == item && r.contents[item.content.value.id] == item
    ensures forall id :: id in s.items && id != item.id ==> r.items[id] == s.items[id]
    ensures forall cid :: cid in s.contents && cid != item.content.value.id ==> r.contents[cid] == s.contents[cid]
  {
    s.(items := s.items[item.id := item], contents := s.contents[item.content.value.id := item])
  }

  /** Every stored item carries the client's current project id. */
  ghost predicate ItemsOfProject(s: Session) {
    forall id :: id in s.items ==> s.items[id].projectId == s.projectId
  }

  /** The item loop of `parse_project_items`, its items parsed: they are
      stored one by one, and the first that could not be parsed aborts the
      loop. Only the two caches change, and neither loses a key. */
  function StoreParsed(s: Session, parsed: seq<Result<ProjectItem>>): (r: Step<()>)
    requires ParsedIn(s.projectId, parsed)
    ensures r.state == s.(items := r.state.items, contents := r.state.contents)
    ensures s.items.Keys <= r.state.items.Keys && s.contents.Keys <= r.state.contents.Keys
    decreases |parsed|
  {
    if parsed == [] then Step(s, Success(()))
    else match parsed[0]
      case Failure(e) => Step(s, Failure(e))
      case Success(item) => StoreParsed(Store(s, item), parsed[1..])
  }

  /** `parse_project_items` over the item nodes of a page. */
  function IndexItems(s: Session, nodes: seq<Json>): (r: Step<()>)
    ensures r.state == s.(items := r.state.items, contents := r.state.contents)
    ensures s.items.Keys <= r.state.items.Keys && s.contents.Keys <= r.state.contents.Keys
  {
    StoreParsed(s, ParseEach(s.projectId, nodes))
  }

  /** The loop keeps the caches consistent and every stored item in the
      current project, and it completes exactly when every node parses. */
  lemma StoreParsedInvariant(s: Session, parsed: seq<Result<ProjectItem>>)
    requires ParsedIn(s.projectId, parsed)
    ensures s.Consistent() ==> StoreParsed(s, parsed).state.Consistent()
    ensures ItemsOfProject(s) ==> ItemsOfProject(StoreParsed(s, parsed).state)
    ensures StoreParsed(s, parsed).result.Success? <==> AllParsed(parsed)
  {
    StoreParsedKeeps(s, parsed);
    StoreParsedCompletes(s, parsed);
  }

  lemma {:induction false} StoreParsedKeeps(s: Session, parsed: seq<Result<ProjectItem>>)
    requires ParsedIn(s.projectId, parsed)
    ensures s.Consistent() ==> StoreParsed(s, parsed).state.Consistent()
    ensures ItemsOfProject(s) ==> ItemsOfProject(StoreParsed(s, parsed).state)
    decreases |parsed|
  {
    if parsed != [] && parsed[0].Success? {
      StoreParsedKeeps(Store(s, parsed[0].value), parsed[1..]);
    }
  }

  lemma {:induction false} StoreParsedCompletes(s: Session, parsed: seq<Result<ProjectItem>>)
    requires ParsedIn(s.projectId, parsed)
    ensures StoreParsed(s, parsed).result.Success? <==> AllParsed(parsed)
    decreases |parsed|
  {
    if parsed != [] && parsed[0].Success? {
      StoreParsedCompletes(Store(s, parsed[0].value), parsed[1..]);
    }
  }

  lemma IndexItemsInvariant(s: Session, nodes: seq<Json>)
    ensures s.Consistent() ==> IndexItems(s, nodes).state.Consistent()
    ensures ItemsOfProject(s) ==> ItemsOfProject(IndexItems(s, nodes).state)
    ensures IndexItems(s, nodes).result.Success? <==> AllParsed(ParseEach(s.projectId, nodes))
  {
    StoreParsedInvariant(s, ParseEach(s.projectId, nodes));
  }

  predicate AllHaveContent(its: seq<ProjectItem>) {
    forall i :: 0 <= i < |its| ==> its[i].content.Some?
  }

  /** Storing already parsed items, in order. */
  function StoreAll(s: Session, its: seq<ProjectItem>): (r: Session)
    requires AllHaveContent(its)
    ensures r == s.(items := r.items, contents := r.contents)
    decreases |its|
  {
    if its == [] then s else StoreAll(Store(s, its[0]), its[1..])
  }

  /** A loop in which every item was parsed stores them all. */
  lemma {:induction false} StoreParsedStoresAll(s: Session, parsed: seq<Result<ProjectItem>>)
    requires ParsedIn(s.projectId, parsed) && AllParsed(parsed)
    ensures AllHaveContent(Values(parsed))
    ensures StoreParsed(s, parsed) == Step(StoreAll(s, Values(parsed)), Success(()))
    decreases |parsed|
  {
    if parsed != [] {
      assert Values(parsed[1..]) == Values(parsed)[1..];
      StoreParsedStoresAll(Store(s, parsed[0].value), parsed[1..]);
    }
  }

  /** One turn of the item loop: the first node fails the loop, or it is
      stored and the loop goes on with the rest. */
  lemma StoreParsedFirst(s: Session, nodes: seq<Json>)
    requires nodes != []
    ensures var first := ParseItem(s.projectId, nodes[0]);
      && (first.Failure? ==> StoreParsed(s, ParseEach(s.projectId, nodes)) == Step(s, Failure(first.error)))
      && (first.Success? ==>
            && first.value.content.Some?
            && Store(s, first.value).projectId == s.projectId
            && StoreParsed(s, ParseEach(s.projectId, nodes))
               == StoreParsed(Store(s, first.value), ParseEach(s.projectId, nodes[1..])))
  {
    var parsed := ParseEach(s.projectId, nodes);
    assert parsed == [ParseItem(s.projectId, nodes[0])] + ParseEach(s.projectId, nodes[1..]);
    assert parsed[1..] == ParseEach(s.projectId, nodes[1..]);
  }

  /** Parsing a list of nodes is parsing its two parts. */
  lemma {:induction false} ParseEachAppend(projectId: Json, a: seq<Json>, b: seq<Json>)
    ensures ParseEach(projectId, a + b) == ParseEach(projectId, a) + ParseEach(projectId, b)
    decreases |a|
  {
    if a == [] {
      assert a + b == b;
    } else {
      assert (a + b)[0] == a[0] && (a + b)[1..] == a[1..] + b;
      ParseEachAppend(projectId, a[1..], b);
    }
  }

  lemma ValuesAppend(x: seq<Result<ProjectItem>>, y: seq<Result<ProjectItem>>)
    requires AllParsed(x) && AllParsed(y)
    ensures AllParsed(x + y) && Values(x + y) == Values(x) + Values(y)
  {
    assert forall i :: 0 <= i < |x + y| ==> (x + y)[i] == if i < |x| then x[i] else y[i - |x|];
  }

  /** Storing two lists is storing their concatenation. */
  lemma {:induction false} StoreAllAppend(s: Session, xs: seq<ProjectItem>, ys: seq<ProjectItem>)
    requires AllHaveContent(xs) && AllHaveContent(ys)
    ensures AllHaveContent(xs + ys)
    ensures StoreAll(s, xs + ys) == StoreAll(StoreAll(s, xs), ys)
    decreases |xs|
  {
    if xs == [] {
      assert xs + ys == ys;
    } else {
      assert (xs + ys)[1..] == xs[1..] + ys;
      StoreAllAppend(Store(s, xs[0]), xs[1..], ys);
    }
  }

  /** What storing leaves in the caches depends on the caches alone. */
  lemma {:induction false} StoreAllCachesOnly(s: Session, t: Session, its: seq<ProjectItem>)
    requires AllHaveContent(its)
    requires s.items == t.items && s.contents == t.contents
    ensures StoreAll(s, its).items == StoreAll(t, its).items
    ensures StoreAll(s, its).contents == StoreAll(t, its).contents
    decreases |its|
  {
    if its != [] {
      StoreAllCachesOnly(Store(s, its[0]), Store(t, its[0]), its[1..]);
    }
  }

  /** Each id maps to the last stored item with that id, entries from
      before surviving only under other ids. */
  lemma {:induction false} StoreAllItemsLastWins(s: Session, its: seq<ProjectItem>)
    requires AllHaveContent(its)
    ensures var r := StoreAll(s, its);
      && (forall id :: id in r.items <==> id in Ids(its) || id in s.items)
      && (forall id :: id in r.items ==> r.items[id] == if id in Ids(its) then its[LastIndex(Ids(its), id).value] else s.items[id])
    decreases |its|
  {
    if its != [] {
      assert Ids(its[1..]) == Ids(its)[1..];
      StoreAllItemsLastWins(Store(s, its[0]), its[1..]);
    }
  }

  /** The same for the content cache, keyed by content id. */
  lemma {:induction false} StoreAllContentsLastWins(s: Session, its: seq<ProjectItem>)
    requires AllHaveContent(its)
    ensures var r := StoreAll(s, its);
      && (forall cid :: cid in r.contents <==> cid in ContentIds(its) || cid in s.contents)
      && (forall cid :: cid in r.contents ==> r.contents[cid] == if cid in ContentIds(its) then its[LastIndex(ContentIds(its), cid).value] else s.contents[cid])
    decreases |its|
  {
    if its != [] {
      assert ContentIds(its[1..]) == ContentIds(its)[1..];
      StoreAllContentsLastWins(Store(s, its[0]), its[1..]);
    }
  }

  /** With pairwise distinct ids and content ids, every stored item can be
      found both under its id and under its content's id. */
  lemma DualIndex(s: Session, its: seq<ProjectItem>)
    requires AllHaveContent(its)
    requires forall i, j :: 0 <= i < j < |its| ==> its[i].id != its[j].id && its[i].content.value.id != its[j].content.value.id
    ensures var r := StoreAll(s, its);
      forall i :: 0 <= i < |its| ==>
        && its[i].id in r.items && r.items[its[i].id] == its[i]
        && its[i].content.value.id in r.contents && r.contents[its[i].content.value.id] == its[i]
  {
    StoreAllItemsLastWins(s, its);
    StoreAllContentsLastWins(s, its);
    var ids := Ids(its);
    var cids := ContentIds(its);
    assert forall a, b :: 0 <= a < b < |ids| ==> ids[a] != ids[b];
    assert forall a, b :: 0 <= a < b < |cids| ==> cids[a] != cids[b];
    forall i | 0 <= i < |its|
      ensures LastIndex(ids, its[i].id) == Some(i)
      ensures LastIndex(cids, its[i].content.value.id) == Some(i)
    {
      LastIndexOfDistinct(ids, i);
      LastIndexOfDistinct(cids, i);
    }
  }
}
