/** The page query of the project items (`generate_project_issues_query`). */
module Queries {
  import opened Wrappers
  import opened PyStr

  /** The text of `QUERY_ORG_PROJECT_ISSUES_TEMPLATE` before its one `%s`. */
  const IssuesTemplateHead: string :=
    "\n"
    + "query GetOrgProjectIssues($org_name: String!, $project_number: Int!) {\n"
    + "    organization(login: $org_name) {\n"
    + "        projectV2(number: $project_number) {\n"
    + "            title\n"
    + "            id\n"
    + "            items("

  /** The text of `QUERY_ORG_PROJECT_ISSUES_TEMPLATE` after its one `%s`. */
  const IssuesTemplateTail: string :=
    ") {\n"
    + "                pageInfo {\n"
    + "                    startCursor\n"
    + "                    endCursor\n"
    + "                    hasNextPage\n"
    + "                }\n"
    + "                nodes {\n"
    + "                    type\n"
    + "                    id\n"
    + "                    content {\n"
    + "                        __typename\n"
    + "                        ... on Issue {\n"
    + "                            id\n"
    + "                            body\n"
    + "                            state\n"
    + "                            title\n"
    + "                            number\n"
    + "                        }\n"
    + "                        ... on DraftIssue {\n"
    + "                            body\n"
    + "                            title\n"
    + "                            id\n"
    + "                        }\n"
    + "                        ... on PullRequest{\n"
    + "                            id\n"
    + "                            number\n"
    + "                            title\n"
    + "                            body\n"
    + "                        }\n"
    + "                    }\n"
    + "                    fieldValues(first: 100) {\n"
    + "                        nodes {\n"
    + "                            __typename\n"
    + "                            ... on ProjectV2ItemFieldTextValue {\n"
    + "                                id\n"
    + "                                text\n"
    + "                                field {\n"
    + "                                    __typename\n"
    + "                                    ... on ProjectV2Field {\n"
    + "                                        id\n"
    + "                                        name\n"
    + "                                    }\n"
    + "                                }\n"
    + "                            }\n"
    + "                            ... on ProjectV2ItemFieldSingleSelectValue {\n"
    + "                                id\n"
    + "                                name\n"
    + "                                optionId\n"
    + "                                field {\n"
    + "                                    __typename\n"
    + "                                    ... on ProjectV2SingleSelectField {\n"
    + "                                        id\n"
    + "                                        name\n"
    + "                                    }\n"
    + "                                }\n"
    + "                            }\n"
    + "                            ... on ProjectV2ItemFieldRepositoryValue {\n"
    + "                                repository {\n"
    + "                                    id\n"
    + "                                    name\n"
    + "                                }\n"
    + "                            }\n"
    + "                        }\n"
    + "                    }\n"
    + "                }\n"
    + "            }\n"
    + "        }\n"
    + "    }\n"
    + "}\n"

  /** `QUERY_ORG_PROJECT_ISSUES_TEMPLATE`, one `%s` between the two texts.
      Unlike the constant queries it is not stripped. */
  const IssuesTemplate: seq<Piece> := [Literal(IssuesTemplateHead), Conversion, Literal(IssuesTemplateTail)]

  /** The items argument: page size 100, and `after` with the cursor inserted
      verbatim when the cursor is truthy (present and non-empty). */
  function ItemsArgument(nextCursor: Option<string>): (r: string)
    ensures |r| >= 10 && r[..10] == "first: 100"
    ensures |r| == 10 <==> nextCursor.None? || nextCursor.value == ""
    ensures |r| > 10 ==> r[10..] == ", after: \"" + nextCursor.value + "\""
  {
    if nextCursor.Some? && nextCursor.value != "" then "first: 100, after: \"" + nextCursor.value + "\""
    else "first: 100"
  }

  /** `generate_project_issues_query`: the template with the items argument
      in place of its `%s` (see IssuesQueryFillsTemplate). */
  function GenerateProjectIssuesQuery(nextCursor: Option<string> := None): (r: string)
    ensures Format(IssuesTemplate, [ItemsArgument(nextCursor)]) == Success(r)
  {
    FormatOne(IssuesTemplateHead, ItemsArgument(nextCursor), IssuesTemplateTail);
    IssuesTemplateHead + ItemsArgument(nextCursor) + IssuesTemplateTail
  }

  /** The query is `IssuesTemplate % insert`: the template with its single
      conversion replaced by the items argument and everything else unchanged. */
  lemma IssuesQueryFillsTemplate(nextCursor: Option<string>)
    ensures Format(IssuesTemplate, [ItemsArgument(nextCursor)]) == Success(GenerateProjectIssuesQuery(nextCursor))
    ensures TemplateText(IssuesTemplate) == IssuesTemplateHead + "%s" + IssuesTemplateTail
  {
    FormatOne(IssuesTemplateHead, ItemsArgument(nextCursor), IssuesTemplateTail);
  }

  /** A non-empty cursor gives `first: 100, after: "<cursor>"`, with the
      cursor inserted verbatim (no escaping). */
  lemma ArgumentWithCursor(cursor: string)
    requires cursor != ""
    ensures ItemsArgument(Some(cursor)) == "first: 100, after: \"" + cursor + "\""
  {
  }

  /** No cursor and the empty cursor both give exactly `first: 100`. */
  lemma ArgumentWithoutCursor()
    ensures ItemsArgument(None) == "first: 100"
    ensures ItemsArgument(Some("")) == "first: 100"
  {
  }

  /** Both branches ask for pages of 100 items. */
  lemma PageSizeIsHundred(nextCursor: Option<string>)
    ensures ItemsArgument(nextCursor)[..10] == "first: 100"
  {
  }

  /** The items argument determines the cursor: distinct non-empty cursors
      give distinct arguments, and no cursor gives the no-cursor argument. */
  lemma {:induction false} ArgumentDeterminesCursor(c1: string, c2: string)
    requires c1 != "" && c2 != ""
    ensures ItemsArgument(Some(c1)) == ItemsArgument(Some(c2)) ==> c1 == c2
    ensures ItemsArgument(Some(c1)) != ItemsArgument(None)
  {
    var a1, a2 := ItemsArgument(Some(c1)), ItemsArgument(Some(c2));
    assert c1 == a1[20..|a1| - 1];
    assert c2 == a2[20..|a2| - 1];
    assert |a1| > |ItemsArgument(None)|;
  }

  /** Two fills of one template are equal only when their arguments are. */
  lemma {:induction false} FillDeterminesArgument(head: string, a: string, b: string, tail: string)
    requires head + a + tail == head + b + tail
    ensures a == b
  {
    var q := head + a + tail;
    assert |a| == |b|;
    assert a == q[|head|..|head| + |a|];
    assert b == (head + b + tail)[|head|..|head| + |b|];
  }

  /** Distinct page cursors give distinct page queries. */
  lemma QueryDeterminesCursor(c1: string, c2: string)
    requires c1 != "" && c2 != ""
    ensures GenerateProjectIssuesQuery(Some(c1)) == GenerateProjectIssuesQuery(Some(c2)) ==> c1 == c2
  {
    if GenerateProjectIssuesQuery(Some(c1)) == GenerateProjectIssuesQuery(Some(c2)) {
      FillDeterminesArgument(IssuesTemplateHead, ItemsArgument(Some(c1)), ItemsArgument(Some(c2)), IssuesTemplateTail);
      ArgumentDeterminesCursor(c1, c2);
    }
  }

  /** A text that starts with a newline is changed by stripping. */
  lemma {:induction false} NewlineLedNotStripped(head: string, rest: string)
    requires head != [] && head[0] == '\n'
    ensures Strip(head + rest) != head + rest
  {
    FirstOfConcat(head, rest);
    assert IsSpace((head + rest)[0]);
    assert |StripLeading(head + rest)| < |head + rest|;
  }

  /** The query keeps the template's leading newline: it is not stripped. */
  lemma QueryNotStripped(nextCursor: Option<string>)
    ensures Strip(GenerateProjectIssuesQuery(nextCursor)) != GenerateProjectIssuesQuery(nextCursor)
  {
    var arg := ItemsArgument(nextCursor);
    FirstOfConcat("\n", IssuesTemplateHead[1..]);
    assert IssuesTemplateHead[0] == '\n';
    FirstOfConcat(IssuesTemplateHead, arg);
    NewlineLedNotStripped(IssuesTemplateHead + arg, IssuesTemplateTail);
  }
}
