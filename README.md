# GitHub Projects GraphQL client: project state, pagination and mutations

This project models the project-state layer of `IntegrationsGHGraphQLClient`, the GraphQL client of
albs-github-integration. It covers:

- the field cache (`get_project_fields`);
- the item caches, filled page by page from the project's item pages (`get_project_issues`,
  `get_project_content_issues`);
- `initialize`;
- the field setters, `create_issue`, `create_comment` and `serach_issues`;
- the page-query builder (`generate_project_issues_query`) and the field-mutation builder
  (`generate_project_field_modification_mutation`);
- the pydantic records the client builds from responses.

The GraphQL endpoint is replaced by the list of answers it will give, in order. Every request takes
the next answer and is logged. When no answer is left, the request fails with a transport error.

Modules, in dependency order:

- `Wrappers`: `Option`, `Result` and the Python exceptions that the model distinguishes.
- `Json`: decoded responses. Also the Python operations the client applies to them: `[]`, `.get`,
  `.pop`, iteration and truthiness, plus jmespath's dotted path lookup.
- `Models`: the records of `models.py`, and their construction from keyword arguments.
- `PyStr`: `%`-formatting and `str.strip`.
- `Queries`, `Mutations`: the two generators, with the real template text.
- `Session`: the client's state as a value (`Session`), the transport (`Send`) and the
  operation outcome `Step` (state after the call, also when it raises, plus the result or exception).
- `ProjectFields`, `ProjectItems`, `ProjectIssues`, `ProjectActions`: each client operation as a
  function over `Session`, with the lemmas that state what it guarantees.
- `GraphQLClient`: the class `IntegrationsGHGraphQLClient`. Its fields are the client's private
  attributes, updated in place by methods with the source's loops. Each method is proved to produce
  exactly the state and result of the corresponding function.

The model follows the code where it differs from the intended behaviour:

- A reload empties only the item cache. The content cache keeps every stale entry.
- An unknown single-select option builds a `ValueError` but does not raise it. The setter fails
  afterwards, when it reads `id` of `None`, still before any request.
- Pydantic 2 makes an `Optional[str]` field without a default required. So a `SingleSelectOption`
  needs a `description` key, which may be null.

## Model

| member | source | states |
|---|---|---|
| Json.Index | albs_github/graphql/client.py:110 | `j[key]` yields the member exactly when `j` is a dict holding the key; a dict without it raises KeyError |
| Json.Search | albs_github/graphql/client.py:95 | a jmespath lookup yields something other than null only when the first key of the path is a member of a dict |
| Json.Get | albs_github/graphql/client.py:121 | `.get` yields the value or null on a dict, and fails with AttributeError on anything else |
| Json.Pop | albs_github/graphql/client.py:120 | `.pop('content', {})` yields the removed value, or the default when absent, and the dict without the key; only a dict has this `pop` |
| Json.Iterate | albs_github/graphql/client.py:109-110 | a list iterates over its elements; only lists, strings and the empty dict iterate; a non-empty dict fails with the error the loop body raises on its first key, anything else with TypeError |
| Models.ParseOption | albs_github/graphql/models.py:17-20 | an option builds exactly when `id` and `name` are strings and `description` is present as null or a string, and carries those values |
| Models.ParseOptions | albs_github/graphql/models.py:40 | an option list builds exactly when every element does, keeping length and order |
| Models.ParseBaseField | albs_github/graphql/models.py:23-26 | a base field needs exactly `id` and `name` as strings |
| Models.ParseSingleSelectField | albs_github/graphql/models.py:39-40 | a single-select field needs `id`, `name` and a list of valid options, and carries exactly the options parsed from that list, in order |
| Models.ParseDraftIssue | albs_github/graphql/models.py:33-44 | a draft needs exactly `id`, `body` and `title` as strings; missing any one fails |
| Models.ParseIssue | albs_github/graphql/models.py:47-50 | an issue needs the base content plus `number` as an int and `state` as a string |
| Models.ParsePullRequest | albs_github/graphql/models.py:53-54 | a pull request needs the base content plus `number`, and no `state` |
| Models.ParseProjectItem | albs_github/graphql/models.py:57-64 | an item needs `id` and `type` as strings; content and fields start as None, the project and repository ids are the given ones or None |
| PyStr.Format | albs_github/graphql/queries.py:152 | `%` succeeds exactly when there are as many arguments as conversions |
| PyStr.FormatOne | albs_github/graphql/queries.py:152 | one conversion is replaced by the argument, with the literal text unchanged |
| PyStr.FormatTwo | albs_github/graphql/mutations.py:53-54 | two conversions are replaced by the two arguments in order, with the literal text unchanged |
| PyStr.StripLeading | albs_github/graphql/mutations.py:55 | the result is the input without its longest white-space prefix |
| PyStr.StripTrailing | albs_github/graphql/mutations.py:55 | the result is the input without its longest white-space suffix |
| PyStr.Strip | albs_github/graphql/mutations.py:55 | the stripped text is no longer than the input, and is empty or starts and ends with a visible character |
| PyStr.StripBlank | albs_github/graphql/mutations.py:55 | stripping leaves nothing exactly when the input is all white space |
| PyStr.StripPadded | albs_github/graphql/mutations.py:55 | stripping white-space padding returns text that starts and ends with a visible character, unchanged |
| Queries.ItemsArgument | albs_github/graphql/queries.py:148-151 | the argument starts with `first: 100`; it is exactly that when the cursor is absent or empty, and otherwise continues with `, after: "<cursor>"` |
| Queries.GenerateProjectIssuesQuery | albs_github/graphql/queries.py:147-153 | the page query is the issues template `%`-formatted with the items argument |
| Queries.IssuesQueryFillsTemplate | albs_github/graphql/queries.py:152-153 | the page query is the template with its single `%s` replaced by the items argument and nothing else changed |
| Queries.ArgumentWithCursor | albs_github/graphql/queries.py:148-149 | a non-empty cursor gives `first: 100, after: "<cursor>"`, with the cursor inserted verbatim |
| Queries.ArgumentWithoutCursor | albs_github/graphql/queries.py:148-151 | no cursor and the empty cursor both give exactly `first: 100` |
| Queries.PageSizeIsHundred | albs_github/graphql/queries.py:149-151 | both branches ask for 100 items |
| Queries.ArgumentDeterminesCursor | albs_github/graphql/queries.py:148-151 | distinct non-empty cursors give distinct arguments, none of which equals the no-cursor argument |
| Queries.FillDeterminesArgument | albs_github/graphql/queries.py:152 | two fills of one template are equal only if their arguments are |
| Queries.QueryDeterminesCursor | albs_github/graphql/queries.py:147-153 | distinct non-empty cursors give distinct page queries |
| Queries.QueryNotStripped | albs_github/graphql/queries.py:152-153 | the page query is not stripped: stripping would change it |
| Mutations.GenerateFieldModificationMutation | albs_github/graphql/mutations.py:27-55 | succeeds exactly for the five allowed kinds; any other kind raises `ValueError('Incorrect value type: <kind>')` |
| Mutations.MutationShape | albs_github/graphql/mutations.py:33-55 | for every allowed kind the result is the stripped template holding the shared parameters, the kind's one parameter and its value shape |
| Mutations.KindParameter | albs_github/graphql/mutations.py:33-52 | the kind's parameter declares the kind's variable |
| Mutations.KindValue | albs_github/graphql/mutations.py:33-52 | the kind's value shape ends by passing that same variable, so the declared and the used variable agree |
| Mutations.OneKindParameter | albs_github/graphql/mutations.py:33-52 | the kind-specific part of the list is a single parameter |
| Mutations.DefaultIsText | albs_github/graphql/mutations.py:27-29 | the default kind is `text`, and it is accepted |
| Mutations.FilledAndStripped | albs_github/graphql/mutations.py:53-55 | the filled template equals its text with the two arguments in place, and stripping removes exactly the framing newlines |
| Mutations.FramedStripped | albs_github/graphql/mutations.py:55 | stripping a text framed by newlines that starts with `m` and ends with `}` leaves the text between the newlines |
| Session.Initial | albs_github/graphql/client.py:55-75 | a new client keeps its configuration, has no project id and no repository id, has empty consistent caches, has sent nothing and awaits the given answers |
| Session.Send | albs_github/graphql/client.py:32-47 | a request takes and returns the next answer and is logged; with none left it fails and changes nothing; requests plus answers left is constant |
| Session.LastIndex | albs_github/graphql/client.py:114 | the position where a key last occurs in a list, if it occurs: the entry a dict keeps when filled in list order |
| ProjectFields.ClassifyField | albs_github/graphql/client.py:110-113 | a node becomes a single-select field, carrying the options parsed from the node, exactly when its `__typename` is `ProjectV2SingleSelectField`, otherwise a base field; a missing `__typename` raises KeyError |
| ProjectFields.ClassifyAll | albs_github/graphql/client.py:109-113 | all nodes build exactly when each does, in order |
| ProjectFields.RegisterFields | albs_github/graphql/client.py:109-114 | the field loop removes no name already cached, whether it completes or stops |
| ProjectFields.RegisterFieldsKeyedByName | albs_github/graphql/client.py:114 | every field is cached under its own name, whether the loop completes or stops |
| ProjectFields.RegisterFieldsLastWins | albs_github/graphql/client.py:109-114 | when every node builds, each name maps to the last field of that name, and earlier entries survive only under other names |
| ProjectFields.RegisterFieldsStops | albs_github/graphql/client.py:109-114 | when a node does not build, the loop ends with the error of the first node that does not build |
| ProjectFields.RegisterFieldsStopsAt | albs_github/graphql/client.py:109-114 | when node k is the first that does not build, its error ends the loop and the cache holds exactly what nodes 0..k-1 stored |
| ProjectFields.LoadFields | albs_github/graphql/client.py:97-115 | a successful load returns the cache; only the field cache and the transport change |
| ProjectFields.FieldsCacheHit | albs_github/graphql/client.py:100-101 | a non-empty cache without reload is returned and no request is sent |
| ProjectFields.FieldsRebuilt | albs_github/graphql/client.py:102-114 | otherwise exactly the fields query is sent, and the cache is rebuilt from nothing with last-wins by name |
| ProjectFields.FieldsRebuildStops | albs_github/graphql/client.py:102-114 | a rebuild whose answer has no node list fails with that error and leaves the cache empty; one whose node k is the first not to build fails with that node's error, keeping the fields of nodes 0..k-1 |
| ProjectItems.ResolveContent | albs_github/graphql/client.py:120-126 | `DraftIssue` gives the draft built from the content, `Issue` the issue, any other tag the pull request; content that is not a dict fails on `.get` |
| ProjectItems.FieldValueStep | albs_github/graphql/client.py:133-151 | the body succeeds exactly on a node with the keys it reads and a hashable field name; a repository value sets the repository id and adds no entry; any other node records `{name, value, filed_id, value_id}` under its field name, the value from `name` for a single-select value and from `text` otherwise |
| ProjectItems.ResolveFieldValues | albs_github/graphql/client.py:132-151 | the field-value loop completes exactly when the body accepts every node; it only adds entries, keeps each under its own name, and keeps the repository id when no repository value occurs |
| ProjectItems.ResolveRepositoryLastWins | albs_github/graphql/client.py:132-136 | over accepted nodes, the repository id is that of the last repository value, or the starting one when there is none |
| ProjectItems.ResolveFieldsLastWins | albs_github/graphql/client.py:138-151 | over accepted nodes, each field name maps to the record of the last node with that name; the starting entries survive only under other names |
| ProjectItems.ResolveFieldsWriteAll | albs_github/graphql/client.py:138-151 | over accepted nodes, the loop's dict is the starting dict with each non-repository node's record written under its field name, in node order |
| ProjectItems.WriteAllLastWins | albs_github/graphql/client.py:146-151 | after dict writes in list order, a key is present exactly when it was present before or written, and holds the value of its last write, or its old value when never written |
| ProjectItems.ParseItem | albs_github/graphql/client.py:119-151 | an item parses exactly when its content resolves, its record builds and its field value nodes are all accepted; it then has the node's id and type, the resolved content, the client's project id, and the repository id and field values of the field-value loop started from its own `repository_id` |
| ProjectItems.MissingContentFails | albs_github/graphql/client.py:120-126 | an item without content falls through to a pull request, which the empty content cannot satisfy |
| ProjectItems.ParseEach | albs_github/graphql/client.py:119-151 | one result per node of the page; every item it yields has a content and the client's project id |
| ProjectItems.ParseEachAt | albs_github/graphql/client.py:119 | the result at each position is the node at that position parsed on its own, so the nodes are parsed in order and independently |
| ProjectItems.StoreParsedFirst | albs_github/graphql/client.py:119-153 | one turn of the item loop: a node that fails to parse ends the loop with its error and the caches as they were; a node that parses is stored and the loop goes on with the nodes after it |
| ProjectItems.Store | albs_github/graphql/client.py:152-153 | storing maps the item's id and its content's id to the item, keeps every other entry of both caches, changes nothing else, and keeps both caches consistent |
| ProjectItems.StoreParsed | albs_github/graphql/client.py:119-153 | the item loop changes only the two caches and removes no key |
| ProjectItems.IndexItems | albs_github/graphql/client.py:118-153 | `parse_project_items` over the nodes of a page changes only the two caches and removes no key |
| ProjectItems.StoreParsedInvariant | albs_github/graphql/client.py:119-153 | the item loop keeps the caches consistent and the items in the current project, and completes exactly when every node parses |
| ProjectItems.IndexItemsInvariant | albs_github/graphql/client.py:118-153 | the same, for the nodes of a page |
| ProjectItems.StoreParsedStoresAll | albs_github/graphql/client.py:119-153 | when every node parses, all the parsed items are stored, in order |
| ProjectItems.StoreAllItemsLastWins | albs_github/graphql/client.py:152 | the item cache maps each id to the last item with that id; earlier entries survive only under other ids |
| ProjectItems.StoreAllContentsLastWins | albs_github/graphql/client.py:153 | the content cache maps each content id to the last item with that content; earlier entries survive only under other ids |
| ProjectItems.DualIndex | albs_github/graphql/client.py:152-153 | with distinct ids, every stored item is found both under its id and under its content's id |
| ProjectItems.ParseEachAppend | albs_github/graphql/client.py:119 | parsing the nodes of several pages is parsing each page's nodes in turn |
| ProjectItems.StoreAllAppend | albs_github/graphql/client.py:152-153 | storing two lists of items one after the other is storing their concatenation |
| ProjectItems.StoreAllCachesOnly | albs_github/graphql/client.py:152-153 | what storing leaves in the caches depends only on the caches it starts from |
| ProjectIssues.PageInfoOf | albs_github/graphql/client.py:166 | the page info read is the one at `items.pageInfo` |
| ProjectIssues.ParsePage | albs_github/graphql/client.py:118-119 | parsing a page changes only the two caches and removes no key |
| ProjectIssues.ReadPage | albs_github/graphql/client.py:175-177 | reading a page returns its `pageInfo` and changes only the caches |
| ProjectIssues.NextPage | albs_github/graphql/client.py:169-177 | a loop round sends exactly the items query after the cursor and consumes one answer |
| ProjectIssues.FetchPages | albs_github/graphql/client.py:168-178 | the page loop changes only the caches and the transport, and returns the item cache |
| ProjectIssues.FirstPage | albs_github/graphql/client.py:159-167 | the first request has no cursor; the project id is taken from the first page |
| ProjectIssues.LoadItems | albs_github/graphql/client.py:117-178 | a filled item cache without reload is returned as it is, with no request; otherwise loading returns the item cache, changes only the project id, the caches and the transport, and removes no content key; `LoadItemsCompletes` states when it completes |
| ProjectIssues.LoadContentItems | albs_github/graphql/client.py:180-183 | without reload, the content cache is returned unchanged, even empty; with reload, the items are reloaded first, the call succeeds exactly when that reload does, and fails with its error |
| ProjectIssues.ReloadClearsOnlyItems | albs_github/graphql/client.py:155-158 | a reload is a load into an emptied item cache with the content cache as it was, for `get_project_content_issues` too; with no answer left it only empties the item cache |
| ProjectIssues.SearchAppend | albs_github/graphql/client.py:95 | a jmespath lookup along a joined path is the lookup of the second part in the result of the first |
| ProjectIssues.PageInfoKey | albs_github/graphql/client.py:166-169 | a key read from the page info is the value at the full jmespath path of that key |
| ProjectIssues.ChainStep | albs_github/graphql/client.py:168-177 | one more loop round extends the chain of requests by the request after the previous page's end cursor |
| ProjectIssues.ChainStops | albs_github/graphql/client.py:168 | a loop that stops without a request sends nothing and completes only on a page without a next page |
| ProjectIssues.ChainFails | albs_github/graphql/client.py:171-177 | a round that fails after its request has sent exactly that request |
| ProjectIssues.FetchPagesChain | albs_github/graphql/client.py:168-177 | the loop sends one request per page consumed, each after the end cursor of the page before; every such page said there was a next page, and the loop completes only on a page saying there is none |
| ProjectIssues.FirstChainStep | albs_github/graphql/client.py:159-177 | a chain after a first request without a cursor forms a paged load |
| ProjectIssues.LoadItemsPages | albs_github/graphql/client.py:155-177 | on a reload or an empty cache: one request per page, the first without a cursor and each later one after the previous end cursor; it stops after the first page without a next page, and `LoadItemsCompletes` shows it reaches that page over readable pages; the project id comes from the first page |
| ProjectIssues.ParsePageInvariant | albs_github/graphql/client.py:118-153 | parsing a page keeps both caches consistent and the items in the current project |
| ProjectIssues.ReadPageInvariant | albs_github/graphql/client.py:175-177 | so does reading a page |
| ProjectIssues.NextPageInvariant | albs_github/graphql/client.py:169-177 | so does a loop round |
| ProjectIssues.FetchPagesInvariant | albs_github/graphql/client.py:168-177 | so does the whole page loop |
| ProjectIssues.FirstPageOutcome | albs_github/graphql/client.py:159-167 | the first page ends without an answer, without a project id, or read under the project id it gave |
| ProjectIssues.FirstPageConsistent | albs_github/graphql/client.py:159-167 | the first page keeps the caches consistent |
| ProjectIssues.FirstPageOfProject | albs_github/graphql/client.py:158-167 | the first page fills the emptied item cache with items of the project id it read |
| ProjectIssues.LoadItemsInvariant | albs_github/graphql/client.py:155-178 | loading keeps both caches consistent; after a reload every cached item carries the current project id |
| ProjectIssues.ReadPageStores | albs_github/graphql/client.py:118-153 | a page read to the end has stored every item node of the page, in order, under the current project id |
| ProjectIssues.StoresCompose | albs_github/graphql/client.py:167-177 | storing one page and then the pages after it stores all of those pages |
| ProjectIssues.PageThenRest | albs_github/graphql/client.py:167-177 | the first answer stored and then the answers after it: the answers consumed are stored |
| ProjectIssues.FetchPagesStores | albs_github/graphql/client.py:168-177 | a page loop that completes has stored every item node of every page it consumed, in order |
| ProjectIssues.FirstPageStores | albs_github/graphql/client.py:159-167 | the first page read to the end has stored its item nodes under the project id it gave |
| ProjectIssues.FirstThenFetchStores | albs_github/graphql/client.py:159-177 | the first page and then the loop store the item nodes of every answer they consumed |
| ProjectIssues.ReadPageReads | albs_github/graphql/client.py:165-167 | a page whose page info, `hasNextPage` and item nodes are all readable, and whose nodes all parse, is read to the end and gives its page info |
| ProjectIssues.FetchPagesCompletes | albs_github/graphql/client.py:167-177 | over `n` readable pages, each but the last saying a next page follows, the page loop reads exactly those pages and completes |
| ProjectIssues.FirstPageReads | albs_github/graphql/client.py:160-167 | a first page that gives a project id and is readable under it is read to the end, and the project id is set from it |
| ProjectIssues.LoadItemsCompletes | albs_github/graphql/client.py:155-177 | a reload, or a load into an empty cache, over `n` readable pages parsed under the first page's project id, each but the last saying a next page follows, reads exactly those `n` pages and completes |
| ProjectIssues.LoadItemsLoadsAll | albs_github/graphql/client.py:155-177 | such a load also holds the first page's project id and has stored every item node of those `n` pages, in order, and nothing else |
| ProjectIssues.LoadItemsStores | albs_github/graphql/client.py:155-178 | a reload, or a load into an empty cache, that completes leaves in the caches exactly what storing every item node of every page consumed, in order, under the first page's project id, into the emptied item cache and the content cache as it was, leaves there |
| ProjectIssues.ReloadKeepsStaleContents | albs_github/graphql/client.py:155-183 | after a completed reload the item cache holds exactly the ids read, while the content cache keeps every entry whose content id the pages no longer list |
| ProjectActions.Initialize | albs_github/graphql/client.py:185-195 | `initialize` leaves the field cache that `get_project_fields()` builds and, when that succeeds, the project id and item caches that `get_project_issues()` then builds. It succeeds exactly when both loads do and an answer is left for the repository query. It then sends that query last and reads the default repository id from its answer |
| ProjectActions.InitializeRepositoryAnswer | albs_github/graphql/client.py:185-195 | whatever the caches hold, a successful `initialize` consumes a run of the answers, and the default repository id comes from the last of them |
| ProjectActions.FieldsConsumeSuffix | albs_github/graphql/client.py:100-108 | loading the fields consumes the first answers, in order |
| ProjectActions.ItemsConsumeSuffix | albs_github/graphql/client.py:155-177 | loading the items consumes the first answers, in order |
| ProjectActions.RepositoryAnswerLast | albs_github/graphql/client.py:188-195 | after the two loads, the repository answer is the last answer consumed |
| ProjectActions.InitializeCold | albs_github/graphql/client.py:185-195 | on a fresh client, a successful `initialize` sends the fields query, then the first page request without a cursor, and the repository query last. The field cache is rebuilt from the first answer, the project id comes from the second, and the default repository id from the last one consumed |
| ProjectActions.ColdSequence | albs_github/graphql/client.py:185-195 | a fields load, then a paged item load, then one more request, laid end to end: at least three answers, in that order |
| ProjectActions.InitializeWarm | albs_github/graphql/client.py:185-195 | with both caches filled, only the repository query is sent, and the default repository id is read from its answer |
| ProjectActions.InitializeInvariant | albs_github/graphql/client.py:185-187 | `initialize` keeps the caches consistent and the items in the current project |
| ProjectActions.FirstOptionNamed | albs_github/graphql/client.py:206-210 | the option chosen is the first whose name matches; there is none exactly when no option matches |
| ProjectActions.SetSingleSelectField | albs_github/graphql/client.py:197-224 | an unknown column raises ValueError, a column without options raises AttributeError, an unknown option fails on `id`, all before any request; on success exactly one request with project id, item id, column id and the first matching option's id |
| ProjectActions.SetTextField | albs_github/graphql/client.py:226-242 | an unknown field raises ValueError before any request; on success exactly one text mutation with project id, item id, field id and text |
| ProjectActions.SetIssueStatus | albs_github/graphql/client.py:244-245 | the single-select update of the `Status` column |
| ProjectActions.SetIssuePlatform | albs_github/graphql/client.py:247-252 | the single-select update of the `Platform` column |
| ProjectActions.CreateIssue | albs_github/graphql/client.py:254-288 | an empty title, then an empty body, raise ValueError before any request; only the transport changes |
| ProjectActions.CreateIssueSends | albs_github/graphql/client.py:267-288 | in order: the issue, the project item for the new issue id, the status update for the new item id; returns both ids |
| ProjectActions.CreateIssueUnknownStatus | albs_github/graphql/client.py:267-287 | with no such status option, the issue and the item are still created before the call fails |
| ProjectActions.RepositoryFallback | albs_github/graphql/client.py:261 | no repository id or an empty one falls back to the default repository id |
| ProjectActions.CreateComment | albs_github/graphql/client.py:290-305 | the item id is checked before the body, both before any request; on success one comment mutation, and its answer is returned |
| ProjectActions.ChosenRepository | albs_github/graphql/client.py:261 | a non-empty repository id given by the caller wins; only otherwise is the default repository id used |
| ProjectActions.SearchText | albs_github/graphql/client.py:310-313 | the search text is the query followed by ` repo:<org>/<repo> state:open` |
| ProjectActions.SearchIssues | albs_github/graphql/client.py:307-319 | an empty query is rejected before any request; otherwise one search request, and its answer is returned |
| GraphQLClient.ResolveFieldValueNodes | albs_github/graphql/client.py:132-151 | the field-value loop yields exactly what `ResolveFieldValues` prescribes, so last-wins by field name and the last repository id |
| GraphQLClient.ParseItemData | albs_github/graphql/client.py:120-151 | the item-loop body yields exactly the parsed item, or the error, of `ParseItem` |
| GraphQLClient.FindOption | albs_github/graphql/client.py:206-210 | the option loop finds the first option with the name |
| GraphQLClient.IntegrationsGHGraphQLClient.constructor | albs_github/graphql/client.py:55-75 | a new client is in the initial state |
| GraphQLClient.IntegrationsGHGraphQLClient.MakeRequest | albs_github/graphql/client.py:32-47 | updates the transport as `Send` does |
| GraphQLClient.IntegrationsGHGraphQLClient.GetProjectFields | albs_github/graphql/client.py:97-115 | the object ends in the state, and returns the result, of `LoadFields` |
| GraphQLClient.IntegrationsGHGraphQLClient.Remember | albs_github/graphql/client.py:152-153 | the client's new state is `Store` of the old one: the item under its id and under its content's id, nothing else changed |
| GraphQLClient.IntegrationsGHGraphQLClient.ParseProjectItems | albs_github/graphql/client.py:118-153 | the same for `ParsePage` |
| GraphQLClient.IntegrationsGHGraphQLClient.ReadPage | albs_github/graphql/client.py:175-177 | the same for `ReadPage` |
| GraphQLClient.IntegrationsGHGraphQLClient.GetProjectIssues | albs_github/graphql/client.py:117-178 | the same for `LoadItems`; a filled cache without reload is returned with no change; so the load completes as in `LoadItemsCompletes` and stores what `LoadItemsStores` states |
| GraphQLClient.IntegrationsGHGraphQLClient.GetProjectContentIssues | albs_github/graphql/client.py:180-183 | the same for `LoadContentItems`; with reload it succeeds exactly when the item reload does |
| GraphQLClient.IntegrationsGHGraphQLClient.Initialize | albs_github/graphql/client.py:185-195 | the same for `Initialize`, so both caches are loaded first, as `InitializeCold` states for a fresh client |
| GraphQLClient.IntegrationsGHGraphQLClient.SetSingleSelectField | albs_github/graphql/client.py:197-224 | the same for `SetSingleSelectField` |
| GraphQLClient.IntegrationsGHGraphQLClient.SetTextField | albs_github/graphql/client.py:226-242 | the same for `SetTextField` |
| GraphQLClient.IntegrationsGHGraphQLClient.SetIssueStatus | albs_github/graphql/client.py:244-245 | the same for `SetIssueStatus` |
| GraphQLClient.IntegrationsGHGraphQLClient.SetIssuePlatform | albs_github/graphql/client.py:247-252 | the same for `SetIssuePlatform` |
| GraphQLClient.IntegrationsGHGraphQLClient.CreateIssue | albs_github/graphql/client.py:254-288 | the same for `CreateIssue` |
| GraphQLClient.IntegrationsGHGraphQLClient.CreateComment | albs_github/graphql/client.py:290-305 | the same for `CreateComment` |
| GraphQLClient.IntegrationsGHGraphQLClient.SearchIssues | albs_github/graphql/client.py:307-319 | the same for `SearchIssues` |

## Left out

- Transport: the HTTP request, its URL, the headers and the token (`BaseGHGraphQLClient`, the `github_token` argument and property). The endpoint is the list of answers it will give. A request only fails when no answer is left.
- The `verbose` flag and logging.
- `async`: the calls are sequential, and the awaits are only suspension points.
- The read-only properties `organization`, `project_number`, `project_id` and `repository_id`. They only return fields, and `Snapshot` exposes all of them.
- The literal text of the constant queries and mutations (queries.py:11-57 and 136-144, mutations.py:58-120). Each is a distinct `Document` token. `MUTATION_ADD_COMMENT_TO_ISSUE` is not used by the client and is not part of this model.
- Requests carry a token for the two generated documents: `ProjectIssuesQuery` holds the cursor as read from the previous page, and `FieldModificationMutation` holds the value kind. `Queries` and `Mutations` model the generated text. The f-string rendering of a cursor that is not a string is not modelled: `Queries.GenerateProjectIssuesQuery` takes an optional string.
- Pydantic type coercion: fields accept exactly the JSON type they declare. The private `__typename` attribute and the `type_name` property of `BaseField` are not modelled.
- JSON numbers are integers. Dict keys compare as JSON values, so Python's `True == 1` key identity is not modelled.
- Iterating a non-empty dict yields its keys in Python, and every loop body of the client then fails on the first key: the field loop with TypeError (`field['__typename']` on a string), the item loop with AttributeError (`.pop` on a string) and the field-value loop with AttributeError (`.get` on a string). The model raises that error at the iteration, without iterating the keys.
- Exceptions carry only their type and the key or attribute involved. The messages of the client's own `ValueError`s are modelled exactly.
- Aliasing of the caches: `get_project_fields`, `get_project_issues` and `get_project_content_issues` (client.py:101, 115, 156, 174, 183) hand the caller the live dicts, and the content cache is never reassigned, so a dict a caller holds keeps changing with later loads. The model returns the caches as values, snapshots taken at the call; what a caller sees through a dict it kept is not modelled.
- ProjectIssues.LoadItems: for a load that fails part-way, which items the pages read before the failure left in the caches is not stated; `ProjectIssues.LoadItemsStores` states the caches of a load that completes.
