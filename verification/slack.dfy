/** `Slack` of pull_reminder/slack_pull_reminder.py: the chat message, the
    form payload posted to the chat API and the check of its answer. */
module Slack {
  import opened Wrappers
  import opened Seqs
  import opened Text
  import opened Configuration
  import opened GitHubData

  const BotName: string := "Pull Request Reminder"
  const BotIcon: string := ":bell:"

  /** The form fields of the chat API request. */
  datatype Payload = Payload(token: string, channel: string, username: string, iconEmoji: string, text: string)

  /** The decoded JSON answer of the chat API: the `ok` flag and the `error` text. */
  datatype Answer = Answer(ok: bool, error: string)

  /** `SlackError`, carrying the API's error text. */
  datatype SlackError = SlackError(reason: string)

  /** `_format_pull_request`: `*[owner/repo]* <url|title - by creator>`. */
  function FormatPullRequest(owner: string, pr: PullRequest): string {
    "*[" + owner + "/" + pr.repositoryName + "]* <" + pr.url + "|" + pr.title + " - by " + pr.creator + ">"
  }

  /** `format_message_lines`: one line per record, in record order, owned by
      the configured organization. */
  function FormatMessageLines(c: Config, prs: seq<PullRequest>): (lines: seq<string>)
    ensures |lines| == |prs|
    ensures forall i :: 0 <= i < |prs| ==>
              lines[i] == "*[" + c.githubOrganization + "/" + prs[i].repositoryName + "]* <"
                          + prs[i].url + "|" + prs[i].title + " - by " + prs[i].creator + ">"
  {
    Map((pr: PullRequest) => FormatPullRequest(c.githubOrganization, pr), prs)
  }

  /** `get_message_text`: the banner, then the lines joined by newlines. */
  function GetMessageText(c: Config, prs: seq<PullRequest>): (text: string)
    ensures |c.slackInitialMessage| <= |text|
    ensures text[..|c.slackInitialMessage|] == c.slackInitialMessage
    ensures prs == [] ==> text == c.slackInitialMessage
  {
    c.slackInitialMessage + Join(FormatMessageLines(c, prs), "\n")
  }

  /** No field that goes into a message line holds a line break. */
  predicate SingleLineFields(owner: string, pr: PullRequest) {
    '\n' !in owner && '\n' !in pr.repositoryName && '\n' !in pr.url && '\n' !in pr.title && '\n' !in pr.creator
  }

  /** The text after the banner splits at line breaks into exactly the message
      lines: one per record, in record order. */
  lemma {:induction false} MessageBodyLines(c: Config, prs: seq<PullRequest>)
    requires |prs| > 0
    requires forall i :: 0 <= i < |prs| ==> SingleLineFields(c.githubOrganization, prs[i])
    ensures Split(GetMessageText(c, prs)[|c.slackInitialMessage|..], '\n') == FormatMessageLines(c, prs)
    ensures |Split(GetMessageText(c, prs)[|c.slackInitialMessage|..], '\n')| == |prs|
  {
    var lines := FormatMessageLines(c, prs);
    assert GetMessageText(c, prs)[|c.slackInitialMessage|..] == Join(lines, "\n");
    assert "\n" == ['\n'];
    SplitJoin(lines, '\n');
  }

  /** `send` minus the HTTP call: the payload posted to `SLACK_POST_URL`. */
  function BuildPayload(c: Config, prs: seq<PullRequest>): (p: Payload)
    ensures p.token == c.slackApiToken && p.channel == c.slackChannel
    ensures p.username == "Pull Request Reminder" && p.iconEmoji == ":bell:"
    ensures p.text == GetMessageText(c, prs)
  {
    Payload(c.slackApiToken, c.slackChannel, BotName, BotIcon, GetMessageText(c, prs))
  }

  /** The answer check at the end of `send`: a false `ok` raises with the API's error. */
  function CheckAnswer(answer: Answer): (o: Outcome<SlackError>)
    ensures o.Pass? <==> answer.ok
    ensures o.Fail? ==> o.error.reason == answer.error
  {
    if !answer.ok then Fail(SlackError(answer.error)) else Pass
  }
}
