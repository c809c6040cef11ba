/** `get_project_issues` and `get_project_content_issues`: the item caches,
    filled page by page. */
module ProjectIssues {
  import opened Wrappers
  import opened Json
  import opened Models
  import opened Session
  import opened ProjectItems

  /** jmespath `data.organization.projectV2` (`parse_project_data`). */
  const ProjectPath: seq<string> := ["data", "organization", "projectV2"]
  const PageInfoPath: seq<string> := ["data", "organization", "projectV2", "items", "pageInfo"]

  /** `project_data['items']['pageInfo']`. */
  function PageInfoOf(projectData: Json): (r: Result<Json>)
    ensures r.Success? ==> r.value == Search(["items", "pageInfo"], projectData)
  {
    var items :- Index(projectData, "items");
    Index(items, "pageInfo")
  }

  /** `parse_project_items(project_data)`. */
  function ParsePage(s: Session, projectData: Json): (r: Step<()>)
    ensures r.state == s.(items := r.state.items, contents := r.state.contents)
    ensures s.items.Keys <= r.state.items.Keys && s.contents.Keys <= r.state.contents.Keys
  {
    match Index(projectData, "items")
    case Failure(e) => Step(s, Failure(e))
    case Success(items) =>
      match Index(items, "nodes")
      case Failure(e) => Step(s, Failure(e))
      case Success(nodes) =>
        match Iterate(nodes, AttributeError("pop"))
        case Failure(e) => Step(s, Failure(e))
        case Success(elems) => IndexItems(s, elems)
  }

  /** Everything a page loop may change: the caches, and the transport. */
  ghost predicate PageFrame(s: Session, t: Session) {
    && t == s.(items := t.items, contents := t.contents, sent := t.sent, pending := t.pending)
    && s.items.Keys <= t.items.Keys && s.contents.Keys <= t.contents.Keys
    && |t.pending| <= |s.pending| && |t.sent| + |t.pending| == |s.sent| + |s.pending|
  }

  /** A page response as the client reads it: `page_info` is taken from
      it, then its items are parsed; the page info is returned. */
  function ReadPage(s: Session, response: Json): (r: Step<Json>)
    ensures r.state == s.(items := r.state.items, contents := r.state.contents)
    ensures s.items.Keys <= r.state.items.Keys && s.contents.Keys <= r.state.contents.Keys
    ensures r.result.Success? ==> PageInfoOf(Search(ProjectPath, response)) == r.result
  {
    var projectData := Search(ProjectPath, response);
    match PageInfoOf(projectData)
    case Failure(e) => Step(s, Failure(e))
    case Success(pageInfo) =>
      var page := ParsePage(s, projectData);
      Step(page.state, if page.result.Failure? then Failure(page.result.error) else Success(pageInfo))
  }

  /** One round of the page loop after its `hasNextPage` test: the next
      page is requested after `cursor` and read. */
  function NextPage(s: Session, cursor: Json): (r: Step<Json>)
    ensures PageFrame(s, r.state)
    ensures s.pending == [] ==> r == Step(s, Failure(TransportError))
    ensures s.pending != [] ==>
      && r.state.sent == s.sent + [PageRequest(s.config, cursor)]
      && r.state.pending == s.pending[1..]
    ensures r.result.Success? ==> s.pending != [] && PageInfoOf(Search(ProjectPath, s.pending[0])) == r.result
  {
    var sent := Send(s, PageRequest(s.config, cursor));
    match sent.result
    case Failure(e) => Step(sent.state, Failure(e))
    case Success(response) => ReadPage(sent.state, response)
  }

  /** The `while page_info['hasNextPage']` loop, from the page info of the
      page just parsed. */
  function FetchPages(s: Session, pageInfo: Json): (r: Step<map<string, ProjectItem>>)
    ensures PageFrame(s, r.state)
    ensures r.result.Success? ==> r.result.value == r.state.items
    decreases |s.pending|
  {
    match Index(pageInfo, "hasNextPage")
    case Failure(e) => Step(s, Failure(e))
    case Success(hasNext) =>
      if !Truthy(hasNext) then Step(s, Success(s.items))
      else
        match Index(pageInfo, "endCursor")
        case Failure(e) => Step(s, Failure(e))
        case Success(cursor) =>
          var next := NextPage(s, cursor);
          if next.result.Failure? then Step(next.state, Failure(next.result.error))
          else FetchPages(next.state, next.result.value)
  }

  /** The first page: requested without a cursor, the project id taken from
      it, then its page info read and its items parsed; the page info is
      returned. */
  function FirstPage(s: Session): (r: Step<Json>)
    ensures PageFrame(s.(projectId := r.state.projectId), r.state)
    ensures s.pending == [] ==> r == Step(s, Failure(TransportError))
    ensures s.pending != [] ==>
      && r.state.sent == s.sent + [PageRequest(s.config, JNull)]
      && r.state.pending == s.pending[1..]
    ensures r.result.Success? ==>
      && s.pending != [] && PageInfoOf(Search(ProjectPath, s.pending[0])) == r.result
      && r.state.projectId == Search(ProjectPath + ["id"], s.pending[0])
  {
    var sent := Send(s, PageRequest(s.config, JNull));
    match sent.result
    case Failure(e) => Step(sent.state, Failure(e))
    case Success(response) =>
      match Index(Search(ProjectPath, response), "id")
      case Failure(e) => Step(sent.state, Failure(e))
      case Success(id) =>
        SearchAppend(ProjectPath, ["id"], response);
        ReadPage(sent.state.(projectId := id), response)
  }

  /** `get_project_issues(reload)`: a non-empty item cache is returned as it
      is unless a reload is asked for. Otherwise the item cache (and only
      it) is emptied, and the first page and then the page loop fill it. */
  function LoadItems(s: Session, reload: bool): (r: Step<map<string, ProjectItem>>)
    ensures s.items != map[] && !reload ==> r == Step(s, Success(s.items))
    ensures r.result.Success? ==> r.result.value == r.state.items
    ensures r.state == s.(projectId := r.state.projectId, items := r.state.items, contents := r.state.contents,
                          sent := r.state.sent, pending := r.state.pending)
    ensures s.contents.Keys <= r.state.contents.Keys
    ensures |r.state.pending| <= |s.pending| && |r.state.sent| + |r.state.pending| == |s.sent| + |s.pending|
  {
    if s.items != map[] && !reload then Step(s, Success(s.items))
    else
      var first := FirstPage(s.(items := map[]));
      if first.result.Failure? then Step(first.state, Failure(first.result.error))
      else FetchPages(first.state, first.result.value)
  }

  /** `get_project_content_issues(reload)`: the content cache, after a full
      reload of the items when asked for. */
  function LoadContentItems(s: Session, reload: bool): (r: Step<map<string, ProjectItem>>)
    ensures !reload ==> r == Step(s, Success(s.contents))
    ensures r.result.Success? ==> r.result.value == r.state.contents
    ensures reload ==> r.state == LoadItems(s, true).state
    ensures reload ==> (r.result.Success? <==> LoadItems(s, true).result.Success?)
    ensures reload && r.result.Failure? ==> r.result == LoadItems(s, true).result
  {
    if reload then
      var loaded := LoadItems(s, true);
      if loaded.result.Failure? then Step(loaded.state, Failure(loaded.result.error))
      else Step(loaded.state, Success(loaded.state.contents))
    else Step(s, Success(s.contents))
  }

  /** A reload empties the item cache and no other: it is a load into an
      empty item cache that starts from the content cache as it was. When it
      fails before any page arrives, the items are gone and the content
      cache is left as it was. */
  lemma ReloadClearsOnlyItems(s: Session)
    ensures LoadItems(s, true) == LoadItems(s.(items := map[]), false)
    ensures LoadContentItems(s, true).state == LoadItems(s.(items := map[]), false).state
    ensures s.pending == [] ==> LoadContentItems(s, true) == Step(s.(items := map[]), Failure(TransportError))
  {
  }

  /** jmespath paths into a page response. */
  function HasNextPage(response: Json): Json {
    Search(PageInfoPath + ["hasNextPage"], response)
  }

  function EndCursor(response: Json): Json {
    Search(PageInfoPath + ["endCursor"], response)
  }

  /** The request for a page of items after `cursor`. */
  function PageRequest(c: Config, cursor: Json): Request {
    Request(ProjectIssuesQuery(cursor), BaseVariables(c))
  }

  /** The page a loop entered after the page `previous` has in hand after
      `k` further responses: `previous` itself, then the responses in order. */
  function PageAt(previous: Json, pending: seq<Json>, k: nat): Json
    requires k <= |pending|
  {
    if k == 0 then previous else pending[k - 1]
  }

  /** The cursor of the `k`-th request of a load: none for the first page,
      then the end cursor of the page before. */
  function CursorOf(pending: seq<Json>, k: nat): Json
    requires 0 < k <= |pending|
  {
    EndCursor(pending[k - 1])
  }

  lemma {:induction false} SearchAppend(p: seq<string>, q: seq<string>, j: Json)
    ensures Search(p + q, j) == Search(q, Search(p, j))
    decreases |p|
  {
    if p == [] {
      assert p + q == q;
    } else {
      assert (p + q)[0] == p[0];
      assert (p + q)[1..] == p[1..] + q;
      if j.JObj? && p[0] in j.members {
        SearchAppend(p[1..], q, j.members[p[0]]);
      } else {
        assert Search(q, JNull) == JNull;
      }
    }
  }

  /** A key the client reads from the page info of a response is the
      value at the jmespath path of that key. */
  lemma PageInfoKey(response: Json, key: string)
    requires PageInfoOf(Search(ProjectPath, response)).Success?
    requires Index(PageInfoOf(Search(ProjectPath, response)).value, key).Success?
    ensures Index(PageInfoOf(Search(ProjectPath, response)).value, key).value == Search(PageInfoPath + [key], response)
  {
    assert PageInfoPath == ProjectPath + ["items", "pageInfo"];
    SearchAppend(ProjectPath, ["items", "pageInfo"], response);
    SearchAppend(PageInfoPath, [key], response);
  }

  /** What the page loop did, entered after the page `previous`: it
      consumed `n` responses and sent one request after `previous` and after
      each consumed page but the last, each with the end cursor of that
      page, which had said there was a next page; it completed only on a
      page saying there was none. */
  ghost predicate Chained(s: Session, previous: Json, r: Step<map<string, ProjectItem>>) {
    var n := |s.pending| - |r.state.pending|;
    && 0 <= n <= |s.pending|
    && r.state.pending == s.pending[n..]
    && |r.state.sent| == |s.sent| + n && s.sent <= r.state.sent
    && (forall k :: 0 <= k < n ==> r.state.sent[|s.sent| + k] == PageRequest(s.config, EndCursor(PageAt(previous, s.pending, k))))
    && (forall k :: 0 <= k < n ==> Truthy(HasNextPage(PageAt(previous, s.pending, k))))
    && (r.result.Success? ==> !Truthy(HasNextPage(PageAt(previous, s.pending, n))))
  }

  /** A chain after `response` extends to one after `previous` when the
      request for `response` was sent after `previous`. */
  lemma ChainStep(s: Session, previous: Json, t: Session, r: Step<map<string, ProjectItem>>)
    requires s.pending != [] && Truthy(HasNextPage(previous))
    requires t.config == s.config && t.pending == s.pending[1..]
    requires t.sent == s.sent + [PageRequest(s.config, EndCursor(previous))]
    requires Chained(t, s.pending[0], r)
    ensures Chained(s, previous, r)
  {
    var m := |t.pending| - |r.state.pending|;
    var n := m + 1;
    assert r.state.pending == s.pending[n..] by {
      assert s.pending[1..][m..] == s.pending[n..];
    }
    assert s.sent <= t.sent <= r.state.sent;
    forall k | 0 <= k < n
      ensures r.state.sent[|s.sent| + k] == PageRequest(s.config, EndCursor(PageAt(previous, s.pending, k)))
      ensures Truthy(HasNextPage(PageAt(previous, s.pending, k)))
    {
      if k == 0 {
        assert r.state.sent[|s.sent|] == t.sent[|s.sent|];
      } else {
        assert PageAt(previous, s.pending, k) == PageAt(s.pending[0], t.pending, k - 1);
        assert |s.sent| + k == |t.sent| + (k - 1);
      }
    }
    assert PageAt(previous, s.pending, n) == PageAt(s.pending[0], t.pending, m);
  }

  /** A loop that stops without a request forms the empty chain. */
  lemma ChainStops(s: Session, previous: Json, r: Step<map<string, ProjectItem>>)
    requires r.state == s
    requires r.result.Success? ==> !Truthy(HasNextPage(previous))
    ensures Chained(s, previous, r)
  {
    assert s.pending[0..] == s.pending;
  }

  /** A loop whose next page failed, after the request for it went out,
      forms a chain of one request. */
  lemma ChainFails(s: Session, previous: Json, r: Step<map<string, ProjectItem>>)
    requires s.pending != [] && Truthy(HasNextPage(previous)) && r.result.Failure?
    requires r.state.config == s.config && r.state.pending == s.pending[1..]
    requires r.state.sent == s.sent + [PageRequest(s.config, EndCursor(previous))]
    ensures Chained(s, previous, r)
  {
    assert r.state.sent[|s.sent|] == PageRequest(s.config, EndCursor(PageAt(previous, s.pending, 0)));
  }

  /** The page loop entered after the page `previous` forms a chain. */
  lemma {:induction false} FetchPagesChain(s: Session, previous: Json)
    requires PageInfoOf(Search(ProjectPath, previous)).Success?
    ensures Chained(s, previous, FetchPages(s, PageInfoOf(Search(ProjectPath, previous)).value))
    decreases |s.pending|
  {
    var info := PageInfoOf(Search(ProjectPath, previous)).value;
    var r := FetchPages(s, info);
    var hasNext := Index(info, "hasNextPage");
    if hasNext.Success? {
      PageInfoKey(previous, "hasNextPage");
    }
    if hasNext.Success? && Truthy(hasNext.value) && Index(info, "endCursor").Success? {
      PageInfoKey(previous, "endCursor");
      var next := NextPage(s, Index(info, "endCursor").value);
      if next.result.Success? {
        assert r == FetchPages(next.state, next.result.value);
        FetchPagesChain(next.state, s.pending[0]);
        ChainStep(s, previous, next.state, r);
      } else if s.pending == [] {
        ChainStops(s, previous, r);
      } else {
        ChainFails(s, previous, r);
      }
    } else {
      ChainStops(s, previous, r);
    }
  }

  /** Consistency of both caches, and the project id of the stored items,
      as kept by parsing a page. */
  ghost predicate KeepsInvariants(s: Session, t: Session) {
    && (s.Consistent() ==> t.Consistent())
    && (ItemsOfProject(s) ==> ItemsOfProject(t))
  }

  lemma ParsePageInvariant(s: Session, projectData: Json)
    ensures KeepsInvariants(s, ParsePage(s, projectData).state)
  {
    if Index(projectData, "items").Success? {
      var items := Index(projectData, "items").value;
      if Index(items, "nodes").Success? && Iterate(Index(items, "nodes").value, AttributeError("pop")).Success? {
        IndexItemsInvariant(s, Iterate(Index(items, "nodes").value, AttributeError("pop")).value);
      }
    }
  }

  lemma ReadPageInvariant(s: Session, response: Json)
    ensures KeepsInvariants(s, ReadPage(s, response).state)
  {
    ParsePageInvariant(s, Search(ProjectPath, response));
  }

  lemma NextPageInvariant(s: Session, cursor: Json)
    ensures KeepsInvariants(s, NextPage(s, cursor).state)
  {
    if s.pending != [] {
      ReadPageInvariant(Send(s, PageRequest(s.config, cursor)).state, s.pending[0]);
    }
  }

  lemma {:induction false} FetchPagesInvariant(s: Session, pageInfo: Json)
    ensures KeepsInvariants(s, FetchPages(s, pageInfo).state)
    decreases |s.pending|
  {
    var hasNext := Index(pageInfo, "hasNextPage");
    if hasNext.Success? && Truthy(hasNext.value) && Index(pageInfo, "endCursor").Success? {
      var next := NextPage(s, Index(pageInfo, "endCursor").value);
      NextPageInvariant(s, Index(pageInfo, "endCursor").value);
      if next.result.Success? {
        FetchPagesInvariant(next.state, next.result.value);
      }
    }
  }

  /** How the first page ends: without a response, without a project id,
      or with the page read under the project id it gave. */
  lemma FirstPageOutcome(s: Session)
    ensures s.pending == [] ==> FirstPage(s).state == s
    ensures s.pending != [] ==>
      var sent := Send(s, PageRequest(s.config, JNull)).state;
      var id := Index(Search(ProjectPath, s.pending[0]), "id");
      FirstPage(s).state == if id.Success? then ReadPage(sent.(projectId := id.value), s.pending[0]).state else sent
  {
  }

  /** The first page keeps the caches consistent. */
  lemma FirstPageConsistent(s: Session)
    ensures s.Consistent() ==> FirstPage(s).state.Consistent()
  {
    FirstPageOutcome(s);
    if s.pending != [] {
      var sent := Send(s, PageRequest(s.config, JNull)).state;
      var id := Index(Search(ProjectPath, s.pending[0]), "id");
      if id.Success? {
        ReadPageInvariant(sent.(projectId := id.value), s.pending[0]);
      }
    }
  }

  /** The first page fills an empty item cache with items of the project
      id it reads. */
  lemma FirstPageOfProject(s: Session)
    ensures s.items == map[] ==> ItemsOfProject(FirstPage(s).state)
  {
    FirstPageOutcome(s);
    if s.pending != [] {
      var sent := Send(s, PageRequest(s.config, JNull)).state;
      var id := Index(Search(ProjectPath, s.pending[0]), "id");
      if id.Success? {
        ReadPageInvariant(sent.(projectId := id.value), s.pending[0]);
      }
    }
  }

  /** Loading keeps both caches consistent; the items cached after a
      reload, or after a load into an empty cache, all carry the project id
      then current, whatever the outcome. */
  lemma LoadItemsInvariant(s: Session, reload: bool)
    ensures s.Consistent() ==> LoadItems(s, reload).state.Consistent()
    ensures ItemsOfProject(s) || reload || s.items == map[] ==> ItemsOfProject(LoadItems(s, reload).state)
  {
    if s.items == map[] || reload {
      var first := FirstPage(s.(items := map[]));
      FirstPageConsistent(s.(items := map[]));
      FirstPageOfProject(s.(items := map[]));
      if first.result.Success? {
        FetchPagesInvariant(first.state, first.result.value);
      }
    }
  }

  /** What a load from the first page did: it consumed `n` responses, one
      per page, and sent one request per page: the first without a cursor
      and each later one after the end cursor of the page before it, every
      such page having said there was a next page. It completed only on a
      page saying there was none. */
  ghost predicate Paged(s: Session, r: Step<map<string, ProjectItem>>) {
    var n := |s.pending| - |r.state.pending|;
    && 0 <= n <= |s.pending|
    && r.state.pending == s.pending[n..]
    && |r.state.sent| == |s.sent| + n && s.sent <= r.state.sent
    && (n > 0 ==> r.state.sent[|s.sent|] == PageRequest(s.config, JNull))
    && (forall k :: 0 < k < n ==> r.state.sent[|s.sent| + k] == PageRequest(s.config, CursorOf(s.pending, k)))
    && (forall k :: 0 <= k < n - 1 ==> Truthy(HasNextPage(s.pending[k])))
    && (r.result.Success? ==> n > 0 && !Truthy(HasNextPage(s.pending[n - 1])))
  }

  /** A chain after the first page, requested without a cursor, makes a
      paged load. */
  lemma FirstChainStep(s: Session, t: Session, r: Step<map<string, ProjectItem>>)
    requires s.pending != []
    requires t.config == s.config && t.pending == s.pending[1..]
    requires t.sent == s.sent + [PageRequest(s.config, JNull)]
    requires Chained(t, s.pending[0], r)
    ensures Paged(s, r)
  {
    FirstChainCounts(s, t, r);
    FirstChainRequests(s, t, r);
    FirstChainPages(s, t, r);
  }

  /** The answers and requests of the first page and the chain after it. */
  lemma FirstChainCounts(s: Session, t: Session, r: Step<map<string, ProjectItem>>)
    requires s.pending != [] && t.pending == s.pending[1..]
    requires t.sent == s.sent + [PageRequest(s.config, JNull)]
    requires Chained(t, s.pending[0], r)
    ensures var n := |s.pending| - |r.state.pending|;
      && 0 < n <= |s.pending| && r.state.pending == s.pending[n..]
      && |r.state.sent| == |s.sent| + n && s.sent <= r.state.sent
      && r.state.sent[|s.sent|] == PageRequest(s.config, JNull)
  {
    var m := |t.pending| - |r.state.pending|;
    assert r.state.pending == s.pending[m + 1..] by {
      assert s.pending[1..][m..] == s.pending[m + 1..];
    }
    assert s.sent <= t.sent <= r.state.sent;
    assert r.state.sent[|s.sent|] == t.sent[|s.sent|];
  }

  /** Each later request of the chain follows the end cursor of the page
      before it. */
  lemma FirstChainRequests(s: Session, t: Session, r: Step<map<string, ProjectItem>>)
    requires s.pending != []
    requires t.config == s.config && t.pending == s.pending[1..]
    requires t.sent == s.sent + [PageRequest(s.config, JNull)]
    requires Chained(t, s.pending[0], r)
    ensures var n := |s.pending| - |r.state.pending|;
      forall k :: 0 < k < n ==> r.state.sent[|s.sent| + k] == PageRequest(s.config, CursorOf(s.pending, k))
  {
    var n := |s.pending| - |r.state.pending|;
    forall k | 0 < k < n
      ensures r.state.sent[|s.sent| + k] == PageRequest(s.config, CursorOf(s.pending, k))
    {
      assert PageAt(s.pending[0], t.pending, k - 1) == s.pending[k - 1];
      assert |s.sent| + k == |t.sent| + (k - 1);
    }
  }

  /** Every page but the last said there was a next page, and a completed
      load ended on one that said there was none. */
  lemma FirstChainPages(s: Session, t: Session, r: Step<map<string, ProjectItem>>)
    requires s.pending != [] && t.pending == s.pending[1..]
    requires Chained(t, s.pending[0], r)
    ensures var n := |s.pending| - |r.state.pending|;
      && (forall k :: 0 <= k < n - 1 ==> Truthy(HasNextPage(s.pending[k])))
      && (r.result.Success? ==> n > 0 && !Truthy(HasNextPage(s.pending[n - 1])))
  {
    var m := |t.pending| - |r.state.pending|;
    forall k | 0 <= k < m
      ensures Truthy(HasNextPage(s.pending[k]))
    {
      assert PageAt(s.pending[0], t.pending, k) == s.pending[k];
    }
    assert PageAt(s.pending[0], t.pending, m) == s.pending[m];
  }

  /** `get_project_issues` with a reload, or into an empty cache, pages
      through the responses, and when it completes holds the project id of
      the first page. */
  lemma LoadItemsPages(s: Session, reload: bool)
    requires reload || s.items == map[]
    ensures Paged(s, LoadItems(s, reload))
    ensures LoadItems(s, reload).result.Success? ==>
      s.pending != [] && LoadItems(s, reload).state.projectId == Search(ProjectPath + ["id"], s.pending[0])
  {
    var first := FirstPage(s.(items := map[]));
    if first.result.Success? {
      var r := FetchPages(first.state, first.result.value);
      assert LoadItems(s, reload) == r;
      FetchPagesChain(first.state, s.pending[0]);
      FirstChainStep(s, first.state, r);
    } else {
      assert s.pending[0..] == s.pending;
    }
  }

  /** A page info the loop reads without error: `hasNextPage` is there
      and says whether a next page follows, and when one does, `endCursor`
      is there too. */
  ghost predicate ReadableInfo(pageInfo: Json, more: bool) {
    && Index(pageInfo, "hasNextPage").Success?
    && Truthy(Index(pageInfo, "hasNextPage").value) == more
    && (more ==> Index(pageInfo, "endCursor").Success?)
  }

  /** A page response the client reads to the end under `projectId`: its
      page info is readable, and its item nodes are there, iterate, and all
      parse. */
  ghost predicate ReadablePage(projectId: Json, response: Json, more: bool) {
    var projectData := Search(ProjectPath, response);
    && PageInfoOf(projectData).Success? && ReadableInfo(PageInfoOf(projectData).value, more)
    && Index(projectData, "items").Success?
    && Index(Index(projectData, "items").value, "nodes").Success?
    && Iterate(Index(Index(projectData, "items").value, "nodes").value, AttributeError("pop")).Success?
    && AllParsed(ParseEach(projectId, Iterate(Index(Index(projectData, "items").value, "nodes").value, AttributeError("pop")).value))
  }

  /** `n` readable pages under `projectId`, each but the last saying that a
      next page follows. */
  ghost predicate ReadablePages(projectId: Json, pages: seq<Json>, n: nat) {
    n <= |pages| && forall k :: 0 <= k < n ==> ReadablePage(projectId, pages[k], k < n - 1)
  }

  lemma ReadablePagesTail(projectId: Json, pages: seq<Json>, n: nat)
    requires ReadablePages(projectId, pages, n) && n > 0
    ensures ReadablePage(projectId, pages[0], n > 1)
    ensures ReadablePages(projectId, pages[1..], n - 1)
  {
    forall k | 0 <= k < n - 1
      ensures ReadablePage(projectId, pages[1..][k], k < n - 2)
    {
      assert pages[1..][k] == pages[k + 1];
    }
  }

  /** A readable page is read to the end, and gives its page info. */
  lemma ReadPageReads(s: Session, response: Json, more: bool)
    requires ReadablePage(s.projectId, response, more)
    ensures ReadPage(s, response).result == PageInfoOf(Search(ProjectPath, response))
  {
    var projectData := Search(ProjectPath, response);
    var nodes := Index(Index(projectData, "items").value, "nodes").value;
    IndexItemsInvariant(s, Iterate(nodes, AttributeError("pop")).value);
  }

  /** The page loop over `n` readable pages, each but the last saying that
      a next page follows, entered after a page info saying whether there
      is a first of them: it reads exactly those `n` pages and completes. */
  lemma {:induction false} FetchPagesCompletes(s: Session, pageInfo: Json, n: nat)
    requires ReadableInfo(pageInfo, n > 0) && ReadablePages(s.projectId, s.pending, n)
    ensures FetchPages(s, pageInfo).result.Success?
    ensures FetchPages(s, pageInfo).state.pending == s.pending[n..]
    decreases n
  {
    if n == 0 {
      assert s.pending[0..] == s.pending;
    } else {
      var cursor := Index(pageInfo, "endCursor").value;
      var sent := Send(s, PageRequest(s.config, cursor)).state;
      ReadablePagesTail(s.projectId, s.pending, n);
      ReadPageReads(sent, s.pending[0], n > 1);
      var next := NextPage(s, cursor);
      assert next == ReadPage(sent, s.pending[0]);
      FetchPagesCompletes(next.state, next.result.value, n - 1);
      assert s.pending[1..][n - 1..] == s.pending[n..];
    }
  }

  /** A first page that gives a project id and is readable under it is
      read to the end, and gives its page info. */
  lemma FirstPageReads(s: Session, more: bool)
    requires s.pending != [] && Index(Search(ProjectPath, s.pending[0]), "id").Success?
    requires ReadablePage(Index(Search(ProjectPath, s.pending[0]), "id").value, s.pending[0], more)
    ensures FirstPage(s).result == PageInfoOf(Search(ProjectPath, s.pending[0]))
    ensures FirstPage(s).state.projectId == Index(Search(ProjectPath, s.pending[0]), "id").value
  {
    var id := Index(Search(ProjectPath, s.pending[0]), "id").value;
    var sent := Send(s, PageRequest(s.config, JNull)).state.(projectId := id);
    ReadPageReads(sent, s.pending[0], more);
  }

  /** `get_project_issues` with a reload, or into an empty cache, over `n`
      readable pages, the first giving the project id under which all are
      parsed and each but the last saying that a next page follows: it
      reads exactly those `n` pages and completes. */
  lemma LoadItemsCompletes(s: Session, reload: bool, n: nat)
    requires reload || s.items == map[]
    requires 0 < n <= |s.pending| && Index(Search(ProjectPath, s.pending[0]), "id").Success?
    requires ReadablePages(Index(Search(ProjectPath, s.pending[0]), "id").value, s.pending, n)
    ensures LoadItems(s, reload).result.Success?
    ensures LoadItems(s, reload).state.pending == s.pending[n..]
  {
    var s0 := s.(items := map[]);
    ReadablePagesTail(Index(Search(ProjectPath, s.pending[0]), "id").value, s.pending, n);
    FirstPageReads(s0, n > 1);
    var first := FirstPage(s0);
    FetchPagesCompletes(first.state, first.result.value, n - 1);
    assert s.pending[1..][n - 1..] == s.pending[n..];
  }

  /** The item nodes of a page response, as `parse_project_items` iterates
      them; none when they cannot be iterated. */
  function PageNodes(response: Json): seq<Json> {
    match Iterate(Search(["items", "nodes"], Search(ProjectPath, response)), AttributeError("pop"))
    case Success(nodes) => nodes
    case Failure(_) => []
  }

  /** The item nodes of several pages, in page order. */
  function AllNodes(pages: seq<Json>): seq<Json>
    decreases |pages|
  {
    if pages == [] then [] else PageNodes(pages[0]) + AllNodes(pages[1..])
  }

  /** `r` holds in its caches what storing the items parsed from `nodes`,
      in order, into the caches of `s` leaves there, every node having
      parsed. */
  ghost predicate Stored(s: Session, projectId: Json, nodes: seq<Json>, r: Session) {
    var parsed := ParseEach(projectId, nodes);
    && AllParsed(parsed) && AllHaveContent(Values(parsed))
    && r.items == StoreAll(s, Values(parsed)).items && r.contents == StoreAll(s, Values(parsed)).contents
  }

  /** A page read to the end has stored every item node of the page, in
      order, under the current project id. */
  lemma ReadPageStores(s: Session, response: Json)
    ensures ReadPage(s, response).result.Success? ==> Stored(s, s.projectId, PageNodes(response), ReadPage(s, response).state)
  {
    var projectData := Search(ProjectPath, response);
    if ReadPage(s, response).result.Success? {
      var items := Index(projectData, "items").value;
      var nodes := Index(items, "nodes").value;
      assert Search(["items", "nodes"], projectData) == nodes;
      var elems := Iterate(nodes, AttributeError("pop")).value;
      IndexItemsInvariant(s, elems);
      StoreParsedStoresAll(s, ParseEach(s.projectId, elems));
    }
  }

  lemma PrefixSplit<T>(p: seq<T>, q: seq<T>, n: nat, m: nat)
    requires 0 < n <= |p| && q == p[1..] && m == n - 1
    ensures p[..n] == [p[0]] + q[..m]
  {
  }

  /** Storing a page's items into a state with the caches of `s`, and then
      the items of the pages after it, stores the items of all the pages
      into `s`. */
  lemma StoresCompose(s: Session, u: Session, t: Session, r: Session, projectId: Json, page: Json, pages: seq<Json>, all: seq<Json>)
    requires all == [page] + pages
    requires u.items == s.items && u.contents == s.contents
    requires Stored(u, projectId, PageNodes(page), t)
    requires Stored(t, projectId, AllNodes(pages), r)
    ensures Stored(s, projectId, AllNodes(all), r)
  {
    assert all[1..] == pages;
    var head := ParseEach(projectId, PageNodes(page));
    var rest := ParseEach(projectId, AllNodes(pages));
    ParseEachAppend(projectId, PageNodes(page), AllNodes(pages));
    ValuesAppend(head, rest);
    StoreAllAppend(s, Values(head), Values(rest));
    StoreAllCachesOnly(u, s, Values(head));
    StoreAllCachesOnly(t, StoreAll(s, Values(head)), Values(rest));
  }

  /** The first of the answers stored, and then the answers after it:
      together, the answers consumed are stored. */
  lemma PageThenRest(s: Session, u: Session, t: Session, r: Session, projectId: Json)
    requires s.pending != [] && u.items == s.items && u.contents == s.contents
    requires t.pending == s.pending[1..] && |r.pending| <= |t.pending|
    requires Stored(u, projectId, PageNodes(s.pending[0]), t)
    requires Stored(t, projectId, AllNodes(t.pending[..|t.pending| - |r.pending|]), r)
    ensures var n := |s.pending| - |r.pending|;
      0 < n <= |s.pending| && Stored(s, projectId, AllNodes(s.pending[..n]), r)
  {
    PrefixSplit(s.pending, t.pending, |s.pending| - |r.pending|, |t.pending| - |r.pending|);
    StoresCompose(s, u, t, r, projectId, s.pending[0],
      t.pending[..|t.pending| - |r.pending|], s.pending[..|s.pending| - |r.pending|]);
  }

  /** Storing depends on the caches of the states only. */
  lemma StoredAgain(s: Session, p: Json, p': Json, nodes: seq<Json>, r: Session, r': Session)
    requires p == p' && r.items == r'.items && r.contents == r'.contents
    requires Stored(s, p, nodes, r)
    ensures Stored(s, p', nodes, r')
  {
  }

  /** The same, for the pages of a prefix given by two equal lengths. */
  lemma StoredPrefixAgain(s: Session, p: Json, pages: seq<Json>, n: int, n': int, r: Session, r': Session)
    requires 0 <= n <= |pages| && n == n' && r.items == r'.items && r.contents == r'.contents
    requires Stored(s, p, AllNodes(pages[..n]), r)
    ensures Stored(s, p, AllNodes(pages[..n']), r')
  {
  }

  /** One more page read, and then the rest of the page loop: together,
      the answers consumed are stored. */
  lemma NextThenFetchStores(s: Session, cursor: Json, next: Step<Json>, r: Step<map<string, ProjectItem>>)
    requires next == NextPage(s, cursor) && next.result.Success?
    requires r == FetchPages(next.state, next.result.value) && r.result.Success?
    requires Stored(next.state, next.state.projectId, AllNodes(next.state.pending[..|next.state.pending| - |r.state.pending|]), r.state)
    ensures 0 < |s.pending| - |r.state.pending| <= |s.pending|
    ensures Stored(s, s.projectId, AllNodes(s.pending[..|s.pending| - |r.state.pending|]), r.state)
  {
    var sent := Send(s, PageRequest(s.config, cursor)).state;
    assert next == ReadPage(sent, s.pending[0]);
    ReadPageStores(sent, s.pending[0]);
    StoredAgain(sent, sent.projectId, next.state.projectId, PageNodes(s.pending[0]), ReadPage(sent, s.pending[0]).state, next.state);
    PageThenRest(s, sent, next.state, r.state, next.state.projectId);
    StoredAgain(s, next.state.projectId, s.projectId, AllNodes(s.pending[..|s.pending| - |r.state.pending|]), r.state, r.state);
  }

  /** A page loop that goes on to the next page, given that the rest of
      the loop from there stores what it consumes, stores what it consumes. */
  lemma MorePagesStores(s: Session, pageInfo: Json, cursor: Json, next: Step<Json>,
                        rest: Step<map<string, ProjectItem>>, r: Step<map<string, ProjectItem>>)
    requires Index(pageInfo, "hasNextPage").Success? && Truthy(Index(pageInfo, "hasNextPage").value)
    requires Index(pageInfo, "endCursor") == Success(cursor) && next == NextPage(s, cursor) && next.result.Success?
    requires rest == FetchPages(next.state, next.result.value)
    requires rest.result.Success? ==>
      var n := |next.state.pending| - |rest.state.pending|;
      0 <= n <= |next.state.pending| && Stored(next.state, next.state.projectId, AllNodes(next.state.pending[..n]), rest.state)
    requires r == FetchPages(s, pageInfo)
    ensures r.result.Success? ==>
      var n := |s.pending| - |r.state.pending|;
      0 <= n <= |s.pending| && Stored(s, s.projectId, AllNodes(s.pending[..n]), r.state)
  {
    if r.result.Success? {
      assert r == rest;
      NextThenFetchStores(s, cursor, next, rest);
      StoredPrefixAgain(s, s.projectId, s.pending, |s.pending| - |rest.state.pending|,
        |s.pending| - |r.state.pending|, rest.state, r.state);
    }
  }

  /** A page loop that completes has stored every item node of every page
      it consumed, in order. */
  lemma {:induction false} FetchPagesStores(s: Session, pageInfo: Json, r: Step<map<string, ProjectItem>>)
    requires r == FetchPages(s, pageInfo)
    ensures r.result.Success? ==>
      var n := |s.pending| - |r.state.pending|;
      0 <= n <= |s.pending| && Stored(s, s.projectId, AllNodes(s.pending[..n]), r.state)
    decreases |s.pending|
  {
    var hasNext := Index(pageInfo, "hasNextPage");
    if hasNext.Success? && Truthy(hasNext.value) && Index(pageInfo, "endCursor").Success? {
      var cursor := Index(pageInfo, "endCursor").value;
      var next := NextPage(s, cursor);
      if next.result.Success? {
        var rest := FetchPages(next.state, next.result.value);
        FetchPagesStores(next.state, next.result.value, rest);
        MorePagesStores(s, pageInfo, cursor, next, rest, r);
      } else {
        PageLoopStops(s, pageInfo, r);
      }
    } else {
      PageLoopStops(s, pageInfo, r);
    }
  }

  /** A page loop that does not go on to a next page it could read stores
      nothing more. */
  lemma PageLoopStops(s: Session, pageInfo: Json, r: Step<map<string, ProjectItem>>)
    requires var hasNext := Index(pageInfo, "hasNextPage");
      !(hasNext.Success? && Truthy(hasNext.value) && Index(pageInfo, "endCursor").Success?
        && NextPage(s, Index(pageInfo, "endCursor").value).result.Success?)
    requires r == FetchPages(s, pageInfo)
    ensures r.result.Success? ==>
      var n := |s.pending| - |r.state.pending|;
      0 <= n <= |s.pending| && Stored(s, s.projectId, AllNodes(s.pending[..n]), r.state)
  {
    if r.result.Success? {
      assert r.state == s && s.pending[..0] == [];
      assert ParseEach(s.projectId, AllNodes([])) == [];
    }
  }

  /** The first page, read to the end, has stored its item nodes under
      the project id it gave. */
  lemma FirstPageStores(s: Session)
    ensures var r := FirstPage(s);
      r.result.Success? ==>
        && s.pending != [] && r.state.pending == s.pending[1..]
        && Stored(s, r.state.projectId, PageNodes(s.pending[0]), r.state)
  {
    var r := FirstPage(s);
    if r.result.Success? {
      var response := s.pending[0];
      var id := Index(Search(ProjectPath, response), "id").value;
      var sent := Send(s, PageRequest(s.config, JNull)).state.(projectId := id);
      assert r == ReadPage(sent, response);
      ReadPageStores(sent, response);
      StoreAllCachesOnly(sent, s, Values(ParseEach(id, PageNodes(response))));
    }
  }

  /** The first page and then the page loop, both completed, have stored
      the item nodes of every answer they consumed. */
  lemma FirstThenFetchStores(s: Session, first: Step<Json>, r: Step<map<string, ProjectItem>>)
    requires first == FirstPage(s) && first.result.Success?
    requires r == FetchPages(first.state, first.result.value) && r.result.Success?
    ensures var n := |s.pending| - |r.state.pending|;
      0 < n <= |s.pending| && Stored(s, r.state.projectId, AllNodes(s.pending[..n]), r.state)
  {
    FirstPageStores(s);
    FetchPagesStores(first.state, first.result.value, r);
    PageThenRest(s, s, first.state, r.state, first.state.projectId);
  }

  /** `get_project_issues` with a reload, or into an empty cache, that
      completes has stored, into the emptied item cache and the content
      cache as it was, every item node of every page it consumed, in order,
      under the project id of the first page. */
  lemma LoadItemsStores(s: Session, reload: bool)
    requires reload || s.items == map[]
    ensures var r := LoadItems(s, reload);
      var n := |s.pending| - |r.state.pending|;
      r.result.Success? ==>
        0 < n <= |s.pending| && Stored(s.(items := map[]), r.state.projectId, AllNodes(s.pending[..n]), r.state)
  {
    var r := LoadItems(s, reload);
    if r.result.Success? {
      var s0 := s.(items := map[]);
      var first := FirstPage(s0);
      assert r == FetchPages(first.state, first.result.value);
      FirstThenFetchStores(s0, first, r);
    }
  }

  /** So over `n` readable pages, a load into an emptied item cache holds
      the project id of the first page and has stored every item node of
      those pages, in order, and no other. */
  lemma LoadItemsLoadsAll(s: Session, reload: bool, n: nat)
    requires reload || s.items == map[]
    requires 0 < n <= |s.pending| && Index(Search(ProjectPath, s.pending[0]), "id").Success?
    requires ReadablePages(Index(Search(ProjectPath, s.pending[0]), "id").value, s.pending, n)
    ensures var r := LoadItems(s, reload);
      && r.result.Success? && r.state.pending == s.pending[n..]
      && r.state.projectId == Index(Search(ProjectPath, s.pending[0]), "id").value
      && Stored(s.(items := map[]), r.state.projectId, AllNodes(s.pending[..n]), r.state)
  {
    var r := LoadItems(s, reload);
    LoadItemsCompletes(s, reload, n);
    LoadItemsPages(s, reload);
    SearchAppend(ProjectPath, ["id"], s.pending[0]);
    LoadItemsStores(s, reload);
    StoredPrefixAgain(s.(items := map[]), r.state.projectId, s.pending, |s.pending| - |r.state.pending|, n, r.state, r.state);
  }

  /** After a reload that completes, the item cache holds exactly the ids
      of the items read, while the content cache keeps, besides the content
      ids read, every entry it had before: content the pages no longer list
      stays cached, stale. */
  lemma ReloadKeepsStaleContents(s: Session)
    ensures var r := LoadContentItems(s, true);
      var n := |s.pending| - |r.state.pending|;
      r.result.Success? ==>
        && 0 < n <= |s.pending|
        && var parsed := ParseEach(r.state.projectId, AllNodes(s.pending[..n]));
        && AllParsed(parsed) && AllHaveContent(Values(parsed))
        && (forall id :: id in r.state.items <==> id in Ids(Values(parsed)))
        && (forall cid :: cid in s.contents && cid !in ContentIds(Values(parsed)) ==>
              cid in r.state.contents && r.state.contents[cid] == s.contents[cid])
  {
    var r := LoadContentItems(s, true);
    if r.result.Success? {
      LoadItemsStores(s, true);
      var n := |s.pending| - |r.state.pending|;
      var parsed := ParseEach(r.state.projectId, AllNodes(s.pending[..n]));
      StoreAllItemsLastWins(s.(items := map[]), Values(parsed));
      StoreAllContentsLastWins(s.(items := map[]), Values(parsed));
    }
  }
}
