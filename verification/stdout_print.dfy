/** `StdoutPrint` of pull_reminder/slack_pull_reminder.py: the value matrix of
    the console table, two rows per pull request. */
module StdoutPrint {
  import opened Seqs
  import opened Configuration
  import opened GitHubData

  const TableName: string := "open pull request to review"
  const Headers: seq<string> := ["repository_name", "[pull.creator] pull.title / pull.url"]

  /** The table as handed to the table writer. */
  datatype Table = Table(name: string, headers: seq<string>, rows: seq<seq<string>>)

  /** `_format_pull_request`: the `owner/repository` row, then the URL row. */
  function FormatPullRequest(owner: string, pr: PullRequest): seq<seq<string>> {
    [[owner + "/" + pr.repositoryName, "[" + pr.creator + "] " + pr.title], ["", pr.url]]
  }

  /** `format_pr_values`: one pair of rows per record. */
  function FormatPrValues(c: Config, prs: seq<PullRequest>): (blocks: seq<seq<seq<string>>>)
    ensures |blocks| == |prs|
    ensures forall i :: 0 <= i < |prs| ==>
              && |blocks[i]| == 2
              && blocks[i][0] == [c.githubOrganization + "/" + prs[i].repositoryName, "[" + prs[i].creator + "] " + prs[i].title]
              && blocks[i][1] == ["", prs[i].url]
  {
    Map((pr: PullRequest) => FormatPullRequest(c.githubOrganization, pr), prs)
  }

  /** The flattened matrix: rows `2i` and `2i + 1` describe record `i`. */
  function ValueMatrix(c: Config, prs: seq<PullRequest>): (rows: seq<seq<string>>)
    ensures |rows| == 2 * |prs|
    ensures forall i :: 0 <= i < |prs| ==>
              && rows[2 * i] == [c.githubOrganization + "/" + prs[i].repositoryName, "[" + prs[i].creator + "] " + prs[i].title]
              && rows[2 * i + 1] == ["", prs[i].url]
  {
    var blocks := FormatPrValues(c, prs);
    FlattenPairs(blocks);
    Flatten(blocks)
  }

  /** `send` minus the rendering: the table name, headers and value matrix. */
  function BuildTable(c: Config, prs: seq<PullRequest>): (t: Table)
    ensures t.name == TableName && t.headers == Headers
    ensures t.rows == ValueMatrix(c, prs) && |t.rows| == 2 * |prs|
  {
    Table(TableName, Headers, ValueMatrix(c, prs))
  }

  /** The rows of consecutive record lists are consecutive: the table keeps
      record order and gives each record its own pair of rows. */
  lemma {:induction false} BuildTableAppend(c: Config, a: seq<PullRequest>, b: seq<PullRequest>)
    ensures BuildTable(c, a + b).rows == BuildTable(c, a).rows + BuildTable(c, b).rows
  {
    var g := (pr: PullRequest) => FormatPullRequest(c.githubOrganization, pr);
    MapAppend(g, a, b);
    FlattenAppend(Map(g, a), Map(g, b));
  }

  /** Two records give these four rows. */
  lemma TwoRecordTable(c: Config, a: PullRequest, b: PullRequest)
    requires c.githubOrganization == "ORG"
    requires a.repositoryName == "a" && a.creator == "bob" && a.title == "Fix X" && a.url == "u1"
    requires b.repositoryName == "b" && b.creator == "ann" && b.title == "Add Y" && b.url == "u2"
    ensures ValueMatrix(c, [a, b]) == [["ORG/a", "[bob] Fix X"], ["", "u1"], ["ORG/b", "[ann] Add Y"], ["", "u2"]]
  {
    var rows := ValueMatrix(c, [a, b]);
    assert [a, b][0] == a && [a, b][1] == b;
    assert "ORG" + "/" + "a" == "ORG/a" && "[" + "bob" + "] " + "Fix X" == "[bob] Fix X";
    assert "ORG" + "/" + "b" == "ORG/b" && "[" + "ann" + "] " + "Add Y" == "[ann] Add Y";
    assert rows[2 * 0] == ["ORG/a", "[bob] Fix X"] && rows[2 * 1] == ["ORG/b", "[ann] Add Y"];
  }
}
