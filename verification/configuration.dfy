/** The run configuration of pull_reminder/config.py: read once from the
    process environment, which is modelled as a map from variable names to
    values. */
module Configuration {
  import opened Wrappers
  import opened Seqs
  import opened Text

  type Env = map<string, string>

  const SlackPostUrl: string := "https://slack.com/api/chat.postMessage"
  const DefaultSlackChannel: string := "#general"
  const SlackInitialMessage: string := "Hi! There's a few open pull requests you should take a\nlook at:\n\n"

  datatype Config = Config(
    slackApiToken: string,
    slackPostUrl: string,
    slackChannel: string,
    slackInitialMessage: string,
    githubApiToken: string,
    githubOrganization: string,
    ignoreTitleWords: seq<string>,
    includeLabels: seq<string>,
    repositories: seq<string>,
    usernames: seq<string>)

  /** `ConfigError`, raised for the first required variable found missing. */
  datatype ConfigError = MissingVariable(name: string)

  /** `os.environ.get(key, default)`. */
  function Lookup(env: Env, key: string, default: string): string {
    if key in env then env[key] else default
  }

  /** `os.environ.get(key)`, which is `None` for an absent variable. */
  function LookupOption(env: Env, key: string): Option<string> {
    if key in env then Some(env[key]) else None
  }

  /** Every piece of a parsed list is lower-case without surrounding whitespace. */
  predicate AllNormalized(words: seq<string>) {
    forall w :: w in words ==> IsNormalized(w)
  }

  /** Python's truth value of a string: it is non-empty. */
  predicate NonEmpty(p: string) {
    p != ""
  }

  /** `[p.lower().strip() for p in pieces if p]`: pieces that are empty BEFORE
      normalization are dropped; a whitespace-only piece survives as `""`. */
  function NormalizeNonEmpty(pieces: seq<string>): (r: seq<string>)
    ensures |r| <= |pieces|
  {
    Map(Normalize, Filter(NonEmpty, pieces))
  }

  /** Exactly the empty pieces are dropped. */
  lemma {:induction false} NormalizeNonEmptyLength(pieces: seq<string>)
    ensures |NormalizeNonEmpty(pieces)| == |pieces| - multiset(pieces)[""]
    decreases |pieces|
  {
    if pieces != [] {
      var rest := pieces[1..];
      NormalizeNonEmptyLength(rest);
      assert pieces == [pieces[0]] + rest;
      assert multiset(pieces)[""] == multiset(rest)[""] + if pieces[0] == "" then 1 else 0;
      assert |Filter(NonEmpty, pieces)| == (if pieces[0] == "" then 0 else 1) + |Filter(NonEmpty, rest)|;
    }
  }

  /** Every surviving piece is normalized. */
  lemma NormalizeNonEmptyNormalized(pieces: seq<string>)
    ensures AllNormalized(NormalizeNonEmpty(pieces))
  {
    var r := NormalizeNonEmpty(pieces);
    forall w | w in r
      ensures IsNormalized(w)
    {
      var j :| 0 <= j < |r| && r[j] == w;
    }
  }

  /** The order of the surviving pieces is the order of the comma pieces. */
  lemma NormalizeNonEmptyAppend(a: seq<string>, b: seq<string>)
    ensures NormalizeNonEmpty(a + b) == NormalizeNonEmpty(a) + NormalizeNonEmpty(b)
  {
    FilterAppend(NonEmpty, a, b);
    MapAppend(Normalize, Filter(NonEmpty, a), Filter(NonEmpty, b));
  }

  /** A keyword survives exactly when some non-empty piece normalizes to it. */
  lemma NormalizeNonEmptyMembers(pieces: seq<string>, x: string)
    ensures x in NormalizeNonEmpty(pieces) <==>
              exists i :: 0 <= i < |pieces| && pieces[i] != "" && Normalize(pieces[i]) == x
  {
    MapFilterMembers(Normalize, NonEmpty, pieces, x);
  }

  /** The parsing of `IGNORE_TITLE_WORDS` and `INCLUDE_LABELS`. */
  function ParseKeywordList(raw: string): (words: seq<string>)
    ensures AllNormalized(words)
    ensures raw == "" ==> words == []
    ensures |words| <= multiset(raw)[','] + 1
  {
    var pieces := Split(raw, ',');
    assert raw == "" ==> pieces == [""];
    SplitCount(raw, ',');
    NormalizeNonEmptyNormalized(pieces);
    NormalizeNonEmpty(pieces)
  }

  /** The keyword lists drop the comma pieces that are empty before
      normalization, and only those: one keyword per non-empty piece, each
      the normalized form of such a piece. A whitespace-only piece is not
      empty, so it still yields a keyword. */
  lemma ParseKeywordListSurvivors(raw: string, x: string)
    ensures |ParseKeywordList(raw)| == |Split(raw, ',')| - multiset(Split(raw, ','))[""]
    ensures x in ParseKeywordList(raw) <==>
              exists i :: 0 <= i < |Split(raw, ',')| && Split(raw, ',')[i] != "" && Normalize(Split(raw, ',')[i]) == x
  {
    NormalizeNonEmptyLength(Split(raw, ','));
    NormalizeNonEmptyMembers(Split(raw, ','), x);
  }

  /** A comma piece made only of whitespace, such as the one after `"wip, "`
      ends, becomes the empty keyword. */
  lemma {:induction false} WhitespacePieceBecomesEmptyKeyword(raw: string, i: nat)
    requires i < |Split(raw, ',')|
    requires Split(raw, ',')[i] != "" && AllSpace(Split(raw, ',')[i])
    ensures "" in ParseKeywordList(raw)
  {
    NormalizeAllSpace(Split(raw, ',')[i]);
    NormalizeNonEmptyMembers(Split(raw, ','), "");
  }

  /** The parsing of `REPOSITORIES` and `USERNAMES`: empty or absent gives no
      names, otherwise every comma piece is kept, empty ones included. */
  function ParseNameList(raw: Option<string>): (names: seq<string>)
    ensures AllNormalized(names)
    ensures raw == None || raw == Some("") ==> names == []
    ensures raw != None && raw != Some("") ==>
              |names| == |Split(raw.value, ',')| == multiset(raw.value)[','] + 1 &&
              forall i :: 0 <= i < |names| ==> names[i] == Normalize(Split(raw.value, ',')[i])
  {
    match raw
    case None => []
    case Some(s) =>
      if s == "" then []
      else
        SplitCount(s, ',');
        Map(Normalize, Split(s, ','))
  }

  /** `Config()`: the Slack settings with their defaults, then the two required
      GitHub variables, then the four comma lists. */
  function LoadConfig(env: Env): (r: Result<Config, ConfigError>)
    ensures r.Failure? <==> "GITHUB_API_TOKEN" !in env || "GITHUB_ORGANIZATION" !in env
    ensures r.Failure? ==>
              r.error == MissingVariable(if "GITHUB_API_TOKEN" !in env then "GITHUB_API_TOKEN" else "GITHUB_ORGANIZATION")
    ensures r.Success? ==>
              && r.value.githubApiToken == env["GITHUB_API_TOKEN"]
              && r.value.githubOrganization == env["GITHUB_ORGANIZATION"]
              && (r.value.slackChannel == if "SLACK_CHANNEL" in env then env["SLACK_CHANNEL"] else "#general")
              && (r.value.slackApiToken == if "SLACK_API_TOKEN" in env then env["SLACK_API_TOKEN"] else "")
              && r.value.slackPostUrl == SlackPostUrl
              && r.value.slackInitialMessage == SlackInitialMessage
              && r.value.ignoreTitleWords == ParseKeywordList(Lookup(env, "IGNORE_TITLE_WORDS", ""))
              && r.value.includeLabels == ParseKeywordList(Lookup(env, "INCLUDE_LABELS", ""))
              && r.value.repositories == ParseNameList(LookupOption(env, "REPOSITORIES"))
              && r.value.usernames == ParseNameList(LookupOption(env, "USERNAMES"))
              && AllNormalized(r.value.ignoreTitleWords) && AllNormalized(r.value.includeLabels)
              && AllNormalized(r.value.repositories) && AllNormalized(r.value.usernames)
  {
    if "GITHUB_API_TOKEN" !in env then Failure(MissingVariable("GITHUB_API_TOKEN"))
    else if "GITHUB_ORGANIZATION" !in env then Failure(MissingVariable("GITHUB_ORGANIZATION"))
    else
      Success(Config(
        slackApiToken := Lookup(env, "SLACK_API_TOKEN", ""),
        slackPostUrl := SlackPostUrl,
        slackChannel := Lookup(env, "SLACK_CHANNEL", DefaultSlackChannel),
        slackInitialMessage := SlackInitialMessage,
        githubApiToken := env["GITHUB_API_TOKEN"],
        githubOrganization := env["GITHUB_ORGANIZATION"],
        ignoreTitleWords := ParseKeywordList(Lookup(env, "IGNORE_TITLE_WORDS", "")),
        includeLabels := ParseKeywordList(Lookup(env, "INCLUDE_LABELS", "")),
        repositories := ParseNameList(LookupOption(env, "REPOSITORIES")),
        usernames := ParseNameList(LookupOption(env, "USERNAMES"))))
  }

  /** `is_slack_configured`: a token, a post URL and a channel are all set. */
  predicate IsSlackConfigured(c: Config) {
    c.slackApiToken != "" && c.slackPostUrl != "" && c.slackChannel != ""
  }

  /** `is_stdout_configured`: the table sink is always on. */
  predicate IsStdoutConfigured(c: Config) {
    true
  }

  /** `is_slack_text_output_configured`: the message echo is always on. */
  predicate IsSlackTextOutputConfigured(c: Config) {
    true
  }

  /** The level names Python's `logging` module registers by default. */
  const LevelNames: seq<string> := ["CRITICAL", "FATAL", "ERROR", "WARN", "WARNING", "INFO", "DEBUG", "NOTSET"]

  /** `logger.setLevel(os.environ.get("LOGLEVEL", logging.INFO))`, the last step
      of `Config()`. Unset, the level is the integer `INFO`, which is accepted.
      Set, it is a string, and `logging` accepts a string only when it is a
      registered level name; any other string raises `ValueError`, which
      carries the rejected value. */
  function CheckLogLevel(env: Env): (r: Outcome<string>)
    ensures r.Pass? <==> "LOGLEVEL" !in env || exists i :: 0 <= i < |LevelNames| && LevelNames[i] == env["LOGLEVEL"]
    ensures r.Fail? ==> "LOGLEVEL" in env && r.error == env["LOGLEVEL"]
  {
    if "LOGLEVEL" in env && env["LOGLEVEL"] !in LevelNames then Fail(env["LOGLEVEL"]) else Pass
  }

  /** Level names are matched exactly: a value holding a lower-case letter,
      such as `debug`, is refused. */
  lemma LowerCaseLevelRejected(env: Env, k: nat)
    requires "LOGLEVEL" in env && k < |env["LOGLEVEL"]| && 'a' <= env["LOGLEVEL"][k] <= 'z'
    ensures CheckLogLevel(env) == Fail(env["LOGLEVEL"])
  {
    var v := env["LOGLEVEL"];
    forall i | 0 <= i < |LevelNames|
      ensures LevelNames[i] != v
    {
      assert forall j :: 0 <= j < |LevelNames[i]| ==> 'A' <= LevelNames[i][j] <= 'Z';
    }
  }

  /** A numeric value such as `10` is refused too: the string is never read
      as a number. */
  lemma NumericLevelRejected(env: Env)
    requires "LOGLEVEL" in env && |env["LOGLEVEL"]| > 0
    requires forall k :: 0 <= k < |env["LOGLEVEL"]| ==> '0' <= env["LOGLEVEL"][k] <= '9'
    ensures CheckLogLevel(env) == Fail(env["LOGLEVEL"])
  {
    var v := env["LOGLEVEL"];
    forall i | 0 <= i < |LevelNames|
      ensures LevelNames[i] != v
    {
      assert 'A' <= LevelNames[i][0] <= 'Z';
    }
  }

  /** For a loaded configuration, Slack delivery is on exactly when the
      environment sets a non-empty token and does not set an empty channel. */
  lemma SlackConfiguredFromEnv(env: Env)
    requires LoadConfig(env).Success?
    ensures IsSlackConfigured(LoadConfig(env).value) <==>
              && "SLACK_API_TOKEN" in env && env["SLACK_API_TOKEN"] != ""
              && ("SLACK_CHANNEL" !in env || env["SLACK_CHANNEL"] != "")
  {
  }
}
