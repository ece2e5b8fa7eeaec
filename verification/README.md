# slack-pull-reminder in Dafny

A verified model of the decision and formatting logic of `pull_reminder`, a
batch job that collects an organization's open GitHub pull requests, filters
them by title and label keywords and reports them as a console table, an echoed
chat message and a Slack post.

Modules, one per component of the source:

- `Configuration` (`pull_reminder/config.py`): the environment is a
  `map<string, string>`. `LoadConfig` fails with `MissingVariable` exactly when
  `GITHUB_API_TOKEN` or `GITHUB_ORGANIZATION` is absent. It fills in the Slack
  defaults and parses the four comma lists. The keyword lists (`IGNORE_TITLE_WORDS`,
  `INCLUDE_LABELS`) drop pieces that are empty before normalization. The name
  lists (`REPOSITORIES`, `USERNAMES`) keep every piece. `CheckLogLevel` models
  the last step of `Config()`, setting the logger level from `LOGLEVEL`.
- `GitHubData` (`pull_reminder/github_data_provider.py`): repositories, pulls,
  labels and reviews are plain datatypes. It models repository selection, the
  "open" filter, record construction, floor hours and the review-state map.
  `build_prs_state` is the filter/map/concat composition.
- `PullFilter`, `Slack`, `StdoutPrint`, `Reminder`
  (`pull_reminder/slack_pull_reminder.py`): the title and label rules, the chat
  message and payload, the table value matrix, and `main` as a pure function.
  `main` returns the ordered list of effects (fetch, table, echo, post) and the
  way the run ends.
- `Text` and `Seqs`: the Python built-ins the code relies on. `str.lower`
  covers ASCII letters only. `str.strip()` removes the characters of
  `str.isspace`. `str.split` with a one-character separator, `str.join` and the
  substring test `in` are modelled exactly. `Seqs` holds order-preserving
  `filter`, `map` and `concat`.

Behaviour of the code worth noting:

- A refused Slack post raises `SlackError`, and nothing in `main` or the
  entry point catches it. The run therefore ends with exit status 1. The table
  and the echo, which come earlier, have already run (`Reminder.SlackFailureAfterConsoleSinks`).
- `Config()` passes a set `LOGLEVEL` to `logger.setLevel` as a string. Python's
  `logging` accepts only the exact level names (`DEBUG`, `INFO`, …) and raises
  `ValueError` for anything else, such as `debug` or `10`. Nothing catches that
  error, so such a run exits with status 1 before fetching anything (`Reminder.Run`).
- `mergeable` is declared `bool` on the record, so it is a `bool` here.
- Each review appends its reviewer to the list of that review's state.

## Model

| member | source | states |
|---|---|---|
| `Configuration.LoadConfig` | pull_reminder/config.py:20-54 | fails iff `GITHUB_API_TOKEN` or `GITHUB_ORGANIZATION` is absent, naming the token first; otherwise carries both values, channel `#general` and token `""` by default, the fixed banner and post URL, `IGNORE_TITLE_WORDS` and `INCLUDE_LABELS` parsed as keyword lists (absent read as `""`), `REPOSITORIES` and `USERNAMES` parsed as name lists, each from its own variable |
| `Configuration.NormalizeNonEmpty` | pull_reminder/config.py:39-44 | the keyword comprehension keeps no more entries than there are pieces; its exact length, normal form, order and members are the four lemmas below |
| `Configuration.NormalizeNonEmptyLength` | pull_reminder/config.py:38-44 | the comprehension keeps one entry per piece that is non-empty before normalization: its length is the number of pieces minus the number of empty pieces |
| `Configuration.NormalizeNonEmptyNormalized` | pull_reminder/config.py:38-44 | every surviving entry is lower-case and has no whitespace at either end |
| `Configuration.NormalizeNonEmptyAppend` | pull_reminder/config.py:39 | the comprehension distributes over concatenation of pieces, so the surviving keywords keep the order of the comma pieces |
| `Configuration.NormalizeNonEmptyMembers` | pull_reminder/config.py:43 | a keyword is in the list iff some non-empty comma piece normalizes to it |
| `Configuration.ParseKeywordList` | pull_reminder/config.py:38-44 | an empty variable gives `[]`; at most comma count + 1 keywords, all fixed points of lower-then-strip |
| `Configuration.ParseKeywordListSurvivors` | pull_reminder/config.py:38-44 | the keyword lists drop exactly the comma pieces that are empty before normalization: there are as many keywords as non-empty pieces, and a keyword is present iff some non-empty piece normalizes to it |
| `Configuration.WhitespacePieceBecomesEmptyKeyword` | pull_reminder/config.py:41-44 | a whitespace-only comma piece survives the raw-emptiness test and becomes the keyword `""` |
| `Configuration.ParseNameList` | pull_reminder/config.py:46-54 | absent or empty gives `[]`; otherwise exactly comma count + 1 names, empty pieces kept, name i the normalized comma piece i |
| `Configuration.CheckLogLevel` | pull_reminder/config.py:15-16 | the level step passes iff `LOGLEVEL` is unset or one of the eight level names `logging` registers; otherwise it fails carrying the rejected value |
| `Configuration.LowerCaseLevelRejected` | pull_reminder/config.py:15-16 | any value containing a lower-case letter, such as `debug`, is refused |
| `Configuration.NumericLevelRejected` | pull_reminder/config.py:15-16 | a non-empty all-digit value, such as `10`, is refused: the string is never read as a number |
| `Configuration.SlackConfiguredFromEnv` | pull_reminder/config.py:56-61 | for a loaded configuration, Slack is configured iff `SLACK_API_TOKEN` is set and non-empty and `SLACK_CHANNEL` is not set to `""` |
| `Text.Lower` | pull_reminder/slack_pull_reminder.py:23 | lower-casing preserves length, moves each upper-case ASCII letter to its own lower-case letter (code point + 32) and leaves every other character unchanged |
| `Text.LowerIdempotent` | pull_reminder/slack_pull_reminder.py:35 | lower-casing twice is lower-casing once |
| `Text.Strip` | pull_reminder/config.py:48 | the result has no whitespace at either end and fits in the input after its leading whitespace |
| `Text.StripSlice` | pull_reminder/config.py:48 | the result is the contiguous slice of the input that starts right after the leading whitespace |
| `Text.StripDropsOnlySpace` | pull_reminder/config.py:48 | everything cut off before and after that slice is whitespace |
| `Text.Normalize` | pull_reminder/config.py:53 | `lower().strip()` yields a lower-case string without surrounding whitespace, no longer than the input |
| `Text.NormalizedIsFixedPoint` | pull_reminder/config.py:43 | a string is lower-case and trimmed iff lower-then-strip leaves it unchanged |
| `Text.NormalizeIdempotent` | pull_reminder/config.py:39 | normalizing a parsed entry again changes nothing |
| `Text.NormalizeAllSpace` | pull_reminder/config.py:42-44 | a piece normalizes to `""` iff it consists only of whitespace |
| `Text.Split` | pull_reminder/config.py:38-39 | `split(",")` never returns an empty list and has at most one piece more than the input has characters |
| `Text.SplitCount` | pull_reminder/config.py:38-39 | `split(",")` gives exactly comma count + 1 pieces |
| `Text.SplitPiecesAvoidSeparator` | pull_reminder/config.py:38-39 | no piece contains the separator |
| `Text.JoinSplit` | pull_reminder/config.py:46-48 | joining the pieces of a split with the separator restores the input |
| `Text.SplitJoin` | pull_reminder/slack_pull_reminder.py:53 | splitting a join of separator-free pieces returns exactly those pieces |
| `Text.EmptyIsSubstring` | pull_reminder/slack_pull_reminder.py:25 | the empty string is `in` every string |
| `Text.Contains` | pull_reminder/slack_pull_reminder.py:37 | the scan returns true iff the needle occurs at some position of the string |
| `Text.AnyWordIn` | pull_reminder/slack_pull_reminder.py:24-26 | true iff some word of the list is a substring of the text |
| `GitHubData.IsRequiredFetchProperties` | pull_reminder/github_data_provider.py:55-57 | an empty list selects no repository; selection is list membership of the lower-cased name, so names equal up to case are selected together |
| `GitHubData.GetRepositoryOpenPrs` | pull_reminder/github_data_provider.py:73-79 | every kept pull is open; each open pull is kept exactly as often as it is listed and no other pull is kept; the kept pulls are an order-preserving subsequence of the listing |
| `GitHubData.AgeHours` | pull_reminder/github_data_provider.py:85-89 | age·3600 ≤ elapsed < (age+1)·3600, floor division also for negative elapsed; non-negative for non-negative elapsed |
| `GitHubData.AgeHoursUnique` | pull_reminder/github_data_provider.py:88 | the bounds determine the age uniquely |
| `GitHubData.LabelNames` | pull_reminder/github_data_provider.py:81-83 | one name per label, in label order |
| `GitHubData.ReviewStatuses` | pull_reminder/github_data_provider.py:91-100 | the keys are exactly the states occurring in the reviews |
| `GitHubData.ReviewStatusesLists` | pull_reminder/github_data_provider.py:95-98 | each state's list is the logins of exactly the reviews in that state, in review order, repeats kept |
| `GitHubData.ReviewStatusesTotal` | pull_reminder/github_data_provider.py:93-100 | the lists' lengths add up to the number of reviews |
| `GitHubData.BuildPrObject` | pull_reminder/github_data_provider.py:59-71 | repository name, creator login, URL, title and mergeable copied unchanged; labels are the label names in order; age is the floor hours of now − updated; review keys are the review states |
| `GitHubData.ExpandRepositoryPulls` | pull_reminder/github_data_provider.py:44-49 | one record per open pull, in listing order, each naming its repository |
| `GitHubData.BuildPrsState` | pull_reminder/github_data_provider.py:33-42 | an empty repository list configured gives no records; every record comes from a selected repository |
| `GitHubData.BuildPrsStateAppend` | pull_reminder/github_data_provider.py:34-41 | the records of a repository list are those of its first part followed by those of the rest: repository order kept, no re-sorting |
| `GitHubData.BuildPrsStateSingle` | pull_reminder/github_data_provider.py:36-40 | one repository contributes its open pulls when selected and nothing otherwise |
| `PullFilter.Accepts` | pull_reminder/slack_pull_reminder.py:16-40 | a record passes iff no ignore word is a substring of its lower-cased title and, unless the include list is empty, some include word is a substring of one of its lower-cased labels |
| `PullFilter.IsValidTitle` | pull_reminder/slack_pull_reminder.py:19-28 | true iff no ignore word is a substring of the lower-cased title; true for every record when the ignore list is empty |
| `PullFilter.AnyLabelMatches` | pull_reminder/slack_pull_reminder.py:34-38 | true iff some lower-cased label contains some word |
| `PullFilter.IsValidLabels` | pull_reminder/slack_pull_reminder.py:30-40 | true for every record when the include list is empty; otherwise true iff some lower-cased label contains some include word, so false without labels |
| `PullFilter.TitleRuleIgnoresCase` | pull_reminder/slack_pull_reminder.py:23 | lower-casing the title does not change the title verdict |
| `PullFilter.EmptyIgnoreWordRejectsAll` | pull_reminder/slack_pull_reminder.py:24-26 | an empty ignore word rejects every title |
| `PullFilter.EmptyIncludeWordAcceptsLabelled` | pull_reminder/slack_pull_reminder.py:34-38 | an empty include word accepts every record that has a label |
| `PullFilter.IgnoreWordExample` | pull_reminder/slack_pull_reminder.py:16-28 | ignore word "wip" rejects the title "WIP: add feature" |
| `PullFilter.IncludeLabelExample` | pull_reminder/slack_pull_reminder.py:30-40 | include word "bug" matches the label "Bug-Critical" |
| `Seqs.FilterMultiset` | pull_reminder/github_data_provider.py:37-39 | filtering keeps every passing element exactly as often as it occurs and drops every other element |
| `Seqs.FilterIsSubsequence` | pull_reminder/github_data_provider.py:37-39 | filtering yields an order-preserving subsequence |
| `Seqs.FlattenPairs` | pull_reminder/slack_pull_reminder.py:92 | flattening two-row blocks puts block i at rows 2i and 2i+1 |
| `Reminder.FilterPullRequests` | pull_reminder/slack_pull_reminder.py:124 | every kept record passes both rules; each record occurs as often as in the input if it passes and never otherwise; the result is an order-preserving subsequence |
| `Slack.FormatMessageLines` | pull_reminder/slack_pull_reminder.py:74-81 | exactly one line per record, in input order, each `*[owner/repo]* <url\|title - by creator>` with the configured organization as owner |
| `Slack.GetMessageText` | pull_reminder/slack_pull_reminder.py:51-53 | the message starts with the configured banner, and with no records it is the banner alone |
| `Slack.MessageBodyLines` | pull_reminder/slack_pull_reminder.py:51-53 | after the banner, the text splits at line breaks into exactly the formatted lines, one per record |
| `Slack.BuildPayload` | pull_reminder/slack_pull_reminder.py:55-65 | the posted form carries the configured token and channel, the fixed bot name and icon, and the message text |
| `Slack.CheckAnswer` | pull_reminder/slack_pull_reminder.py:69-72 | passes iff the answer's `ok` is true; otherwise fails with the answer's error text |
| `StdoutPrint.FormatPrValues` | pull_reminder/slack_pull_reminder.py:102-112 | one block per record, in order, of exactly two rows: `[owner/repo, "[creator] title"]` and `["", url]` |
| `StdoutPrint.ValueMatrix` | pull_reminder/slack_pull_reminder.py:91-92 | exactly 2n rows; row 2i is `[owner/repo_i, "[creator_i] title_i"]`, row 2i+1 is `["", url_i]` |
| `StdoutPrint.BuildTable` | pull_reminder/slack_pull_reminder.py:91-97 | the table carries the fixed name and headers, and its rows are the value matrix: two per record, `[owner/repo, "[creator] title"]` then `["", url]` |
| `StdoutPrint.BuildTableAppend` | pull_reminder/slack_pull_reminder.py:91-97 | the table of a concatenation of records is the table of the first part followed by that of the second: rows keep record order |
| `StdoutPrint.TwoRecordTable` | pull_reminder/slack_pull_reminder.py:108-112 | two records give the four rows `["ORG/a","[bob] Fix X"]`, `["","u1"]`, `["ORG/b","[ann] Add Y"]`, `["","u2"]` |
| `Reminder.Pending` | pull_reminder/slack_pull_reminder.py:122-124 | the records `main` reports are those fetched from the repositories selected by `REPOSITORIES` that pass the filter: each passes both rules, each passing record occurs exactly as often as fetched, in fetch order |
| `Reminder.Deliver` | pull_reminder/slack_pull_reminder.py:132-141 | the sinks run as table, echo, then a post to the configured URL exactly when Slack is configured; the run ends in `SlackFailed` with the API's error text iff Slack is configured and the post is refused |
| `Reminder.RunConfigured` | pull_reminder/slack_pull_reminder.py:122-141 | the run fetches first; it stops with only the fetch iff the filtered list is empty; otherwise the trace is fetch, table, echo and, exactly when Slack is configured, the post, all built from the filtered records, and it ends in `SlackFailed` with the API error iff Slack is configured and the post is refused |
| `Reminder.Run` | pull_reminder/slack_pull_reminder.py:115-149 | a configuration error happens iff a required variable is missing; with both present, the run stops on the log level iff `LOGLEVEL` is set to a value that is not a level name, carrying that value; in both cases nothing at all is done; otherwise the first effect fetches the configured organization, and the whole run is `RunConfigured` of the loaded configuration, so its full trace and exit are the ones stated there |
| `Reminder.SlackFailureAfterConsoleSinks` | pull_reminder/slack_pull_reminder.py:132-139 | a refused post ends the run with the API error after the fetch, table and echo have run (four effects) |
| `Reminder.ExitCode` | pull_reminder/slack_pull_reminder.py:144-149 | the exit status is 0 exactly for a completed run or one with nothing to send, else 1 |
| `Reminder.RunExitCode` | pull_reminder/slack_pull_reminder.py:144-149 | a run exits non-zero iff configuration is missing, or the log level is refused, or there is something to send, Slack is configured and the post is refused |

## Left out

- GitHub access is left out: `login`, `organization`, `repositories()`, `pull_requests()`, the per-pull `pull_request(number)` detail fetch and `reviews()`. The organization's repositories are an input value, and each `Pull` already holds its full detail. The fetch is one `FetchPulls` effect, not one effect per network call.
- The Slack HTTP POST and its JSON decoding are left out. The decoded answer is an input `Answer` with both `ok` and `error`. A `KeyError` from a missing field is not modelled.
- Table rendering with `pytablewriter` is left out: margin, borders and drawing. Only the table name, headers and value matrix are modelled.
- The clock is left out. `datetime.now`, time zones and the float `total_seconds()` become integer seconds (`now - updatedAt`). `int()` truncates a negative fractional difference toward zero; this is not modelled.
- Level names added at run time with `logging.addLevelName` are not modelled; the repository registers none.
- Reading `os.environ`, all log output, `pprint` of the filtered records and `print`'s trailing newline are left out.
- `str.lower()` is modelled for ASCII letters only; non-ASCII letters are unchanged.
- pydantic validation is left out, including the rejection of a `None` mergeable flag. The vestigial `pull_requests` field is dropped.
- `ConfigError`'s message is modelled as the missing variable's name. The source passes a format string and the `KeyError` text as two arguments.
- `_get_repo_names`, `_get_prs_titles` and `get_organization_repos` are left out. The first two are unused debugging helpers; the third is a network call.
- simple_test.py is left out. It reads a JSON snapshot from disk and prints it.
- Reminder.Pending: every record's age is measured against one `now` value. The source reads the clock once per pull (pull_reminder/github_data_provider.py:87), so two pulls with the same update time can get ages one hour apart when the clock crosses an hour boundary between them. The model cannot show that.
- Slack.MessageBodyLines: stated only for records whose fields contain no line break. A line break inside a title would make the text split into more pieces than there are records.
- GitHubData.BuildPrObject: its contract states only the keys of the review map. The per-state lists are stated by `GitHubData.ReviewStatusesLists`.
