/** `main` of pull_reminder/slack_pull_reminder.py as a pure function: the
    environment, the organization's repositories, the clock and the chat API's
    answer go in; the externally visible effects, in order, and the way the run
    ends come out. */
module Reminder {
  import opened Wrappers
  import opened Seqs
  import opened Configuration
  import opened GitHubData
  import opened PullFilter
  import opened Slack
  import opened StdoutPrint

  /** What the run does to the outside world. */
  datatype Effect =
    | FetchPulls(organization: string)
    | WriteTable(table: Table)
    | EchoMessage(text: string)
    | PostMessage(url: string, payload: Payload)

  /** How the run ends. */
  datatype Exit =
    | Completed
    | NothingToSend
    | ConfigFailed(configError: ConfigError)
    | LogLevelFailed(level: string)
    | SlackFailed(slackError: SlackError)

  datatype RunResult = RunResult(effects: seq<Effect>, exit: Exit)

  /** The list comprehension over `pr_filter.filter`: the accepted records, in
      input order, each as often as in the input. */
  function FilterPullRequests(c: Config, prs: seq<PullRequest>): (kept: seq<PullRequest>)
    ensures forall i :: 0 <= i < |kept| ==> Accepts(c, kept[i])
    ensures forall pr :: multiset(kept)[pr] == if Accepts(c, pr) then multiset(prs)[pr] else 0
    ensures IsSubsequence(kept, prs)
  {
    FilterIsSubsequence((pr: PullRequest) => Accepts(c, pr), prs);
    FilterMultiset((pr: PullRequest) => Accepts(c, pr), prs);
    Filter((pr: PullRequest) => Accepts(c, pr), prs)
  }

  /** The records the run reports: those of the repositories selected by
      `REPOSITORIES`, then filtered. */
  function Pending(c: Config, repos: seq<Repository>, now: int): (p: seq<PullRequest>)
    ensures forall i :: 0 <= i < |p| ==> Accepts(c, p[i])
    ensures forall pr :: multiset(p)[pr] ==
              if Accepts(c, pr) then multiset(BuildPrsState(repos, c.repositories, now))[pr] else 0
    ensures IsSubsequence(p, BuildPrsState(repos, c.repositories, now))
  {
    FilterPullRequests(c, BuildPrsState(repos, c.repositories, now))
  }

  /** The sinks in their fixed order: table, message echo, then, when Slack is
      configured, the post, whose answer decides how the run ends. */
  function Deliver(c: Config, prs: seq<PullRequest>, answer: Answer): (r: RunResult)
    ensures IsSlackConfigured(c) ==>
              r.effects == [WriteTable(BuildTable(c, prs)), EchoMessage(GetMessageText(c, prs)),
                            PostMessage(c.slackPostUrl, BuildPayload(c, prs))]
    ensures !IsSlackConfigured(c) ==>
              r.effects == [WriteTable(BuildTable(c, prs)), EchoMessage(GetMessageText(c, prs))]
    ensures r.exit == if IsSlackConfigured(c) && !answer.ok then SlackFailed(SlackError(answer.error)) else Completed
  {
    var table := if IsStdoutConfigured(c) then [WriteTable(BuildTable(c, prs))] else [];
    var echo := if IsSlackTextOutputConfigured(c) then [EchoMessage(GetMessageText(c, prs))] else [];
    if IsSlackConfigured(c) then
      var post := [PostMessage(c.slackPostUrl, BuildPayload(c, prs))];
      match CheckAnswer(answer)
      case Pass => RunResult(table + echo + post, Completed)
      case Fail(e) => RunResult(table + echo + post, SlackFailed(e))
    else
      RunResult(table + echo, Completed)
  }

  /** `main` after `Config()` succeeded: fetch, filter, stop when nothing is
      left, otherwise deliver. */
  function RunConfigured(c: Config, repos: seq<Repository>, now: int, answer: Answer): (r: RunResult)
    ensures |r.effects| >= 1 && r.effects[0] == FetchPulls(c.githubOrganization)
    ensures r.exit.NothingToSend? <==> Pending(c, repos, now) == []
    ensures r.exit.NothingToSend? ==> |r.effects| == 1
    ensures !r.exit.ConfigFailed?
    ensures r.exit.SlackFailed? ==> IsSlackConfigured(c) && !answer.ok && r.exit.slackError.reason == answer.error
    ensures Pending(c, repos, now) != [] && IsSlackConfigured(c) ==>
              var p := Pending(c, repos, now);
              r.effects == [FetchPulls(c.githubOrganization), WriteTable(BuildTable(c, p)),
                            EchoMessage(GetMessageText(c, p)), PostMessage(c.slackPostUrl, BuildPayload(c, p))]
    ensures Pending(c, repos, now) != [] && !IsSlackConfigured(c) ==>
              var p := Pending(c, repos, now);
              r.effects == [FetchPulls(c.githubOrganization), WriteTable(BuildTable(c, p)), EchoMessage(GetMessageText(c, p))]
    ensures Pending(c, repos, now) != [] ==>
              r.exit == if IsSlackConfigured(c) && !answer.ok then SlackFailed(SlackError(answer.error)) else Completed
  {
    var fetch := [FetchPulls(c.githubOrganization)];
    var prs := Pending(c, repos, now);
    if prs == [] then RunResult(fetch, NothingToSend)
    else
      var d := Deliver(c, prs, answer);
      var table := WriteTable(BuildTable(c, prs));
      var echo := EchoMessage(GetMessageText(c, prs));
      PrependToTwo(fetch[0], table, echo);
      PrependToThree(fetch[0], table, echo, PostMessage(c.slackPostUrl, BuildPayload(c, prs)));
      RunResult(fetch + d.effects, d.exit)
  }

  /** `main`, wrapped by the `ConfigError` handler of the script entry point:
      a missing required variable ends the run before anything is fetched, and
      so does a `LOGLEVEL` that `logging` refuses, whose `ValueError` nothing
      catches. */
  function Run(env: Env, repos: seq<Repository>, now: int, answer: Answer): (r: RunResult)
    ensures r.exit.ConfigFailed? <==> "GITHUB_API_TOKEN" !in env || "GITHUB_ORGANIZATION" !in env
    ensures r.exit.ConfigFailed? ==> r.effects == [] && r.exit.configError == LoadConfig(env).error
    ensures r.exit.LogLevelFailed? <==>
              && "GITHUB_API_TOKEN" in env && "GITHUB_ORGANIZATION" in env
              && "LOGLEVEL" in env && env["LOGLEVEL"] !in LevelNames
    ensures r.exit.LogLevelFailed? ==> r.effects == [] && r.exit.level == env["LOGLEVEL"]
    ensures !r.exit.ConfigFailed? && !r.exit.LogLevelFailed? ==>
              |r.effects| >= 1 && r.effects[0] == FetchPulls(env["GITHUB_ORGANIZATION"])
    ensures LoadConfig(env).Success? && CheckLogLevel(env).Pass? ==>
              r == RunConfigured(LoadConfig(env).value, repos, now, answer)
  {
    match LoadConfig(env)
    case Failure(e) => RunResult([], ConfigFailed(e))
    case Success(c) =>
      match CheckLogLevel(env)
      case Fail(level) => RunResult([], LogLevelFailed(level))
      case Pass => RunConfigured(c, repos, now, answer)
  }

  lemma PrependToTwo<T>(a: T, b: T, c: T)
    ensures [a] + [b, c] == [a, b, c]
  {
  }

  lemma PrependToThree<T>(a: T, b: T, c: T, d: T)
    ensures [a] + [b, c, d] == [a, b, c, d]
  {
  }

  /** A refused post ends the run with the API's error, after the table and
      the echo have already been written. */
  lemma {:induction false} SlackFailureAfterConsoleSinks(c: Config, repos: seq<Repository>, now: int, answer: Answer)
    ensures Pending(c, repos, now) != [] && IsSlackConfigured(c) && !answer.ok ==>
              var r := RunConfigured(c, repos, now, answer);
              && r.exit == SlackFailed(SlackError(answer.error))
              && |r.effects| == 4
              && r.effects[1].WriteTable?
              && r.effects[2].EchoMessage?
  {
  }

  /** The process exit status: 1 from the `ConfigError` handler and from the
      uncaught `ValueError` and `SlackError`, 0 otherwise. */
  function ExitCode(exit: Exit): (code: int)
    ensures code == 0 <==> exit.Completed? || exit.NothingToSend?
    ensures code == 0 || code == 1
  {
    match exit
    case Completed => 0
    case NothingToSend => 0
    case ConfigFailed(_) => 1
    case LogLevelFailed(_) => 1
    case SlackFailed(_) => 1
  }

  /** A run fails exactly when configuration is missing, the log level is
      refused, or a post is refused. */
  lemma {:induction false} RunExitCode(env: Env, repos: seq<Repository>, now: int, answer: Answer)
    ensures ExitCode(Run(env, repos, now, answer).exit) != 0 <==>
              || LoadConfig(env).Failure?
              || CheckLogLevel(env).Fail?
              || (&& Pending(LoadConfig(env).value, repos, now) != []
                  && IsSlackConfigured(LoadConfig(env).value)
                  && !answer.ok)
  {
    if LoadConfig(env).Success? {
      var c := LoadConfig(env).value;
      if CheckLogLevel(env).Pass? {
        assert Run(env, repos, now, answer) == RunConfigured(c, repos, now, answer);
        if Pending(c, repos, now) != [] && IsSlackConfigured(c) && !answer.ok {
          SlackFailureAfterConsoleSinks(c, repos, now, answer);
        }
      }
    }
  }
}
