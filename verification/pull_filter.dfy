/** `PRFilter` of pull_reminder/slack_pull_reminder.py: a record is reported
    when its title passes the ignore-word rule and its labels pass the
    include-label rule. */
module PullFilter {
  import opened Text
  import opened Configuration
  import opened GitHubData

  /** `is_valid_title`: no ignore word occurs in the lower-cased title; an empty
      ignore list accepts every title. */
  function IsValidTitle(c: Config, pr: PullRequest): (valid: bool)
    ensures |c.ignoreTitleWords| == 0 ==> valid
    ensures valid <==>
              forall i :: 0 <= i < |c.ignoreTitleWords| ==> !IsSubstring(c.ignoreTitleWords[i], Lower(pr.title))
  {
    if |c.ignoreTitleWords| == 0 then true
    else !AnyWordIn(c.ignoreTitleWords, Lower(pr.title))
  }

  /** Some label, lower-cased, contains some of `words`. */
  function AnyLabelMatches(labels: seq<string>, words: seq<string>): (r: bool)
    ensures r <==> exists i, j :: 0 <= i < |labels| && 0 <= j < |words| && IsSubstring(words[j], Lower(labels[i]))
  {
    if labels == [] then false
    else
      assert forall i :: 1 <= i < |labels| ==> labels[i] == labels[1..][i - 1];
      AnyWordIn(words, Lower(labels[0])) || AnyLabelMatches(labels[1..], words)
  }

  /** `is_valid_labels`: an empty include list accepts every record; otherwise
      some label must contain some include word, so a record without labels is
      rejected. */
  function IsValidLabels(c: Config, pr: PullRequest): (valid: bool)
    ensures |c.includeLabels| == 0 ==> valid
    ensures |c.includeLabels| > 0 ==>
              (valid <==> exists i, j :: 0 <= i < |pr.labels| && 0 <= j < |c.includeLabels|
                                      && IsSubstring(c.includeLabels[j], Lower(pr.labels[i])))
    ensures |c.includeLabels| > 0 && pr.labels == [] ==> !valid
  {
    if |c.includeLabels| == 0 then true
    else AnyLabelMatches(pr.labels, c.includeLabels)
  }

  /** `filter`: both rules pass, that is, no ignore word occurs in the
      lower-cased title, and either no include words are configured or some
      lower-cased label contains one of them. */
  function Accepts(c: Config, pr: PullRequest): (ok: bool)
    ensures ok <==>
              && (forall i :: 0 <= i < |c.ignoreTitleWords| ==> !IsSubstring(c.ignoreTitleWords[i], Lower(pr.title)))
              && (|c.includeLabels| == 0 ||
                  exists i, j :: 0 <= i < |pr.labels| && 0 <= j < |c.includeLabels|
                              && IsSubstring(c.includeLabels[j], Lower(pr.labels[i])))
  {
    IsValidTitle(c, pr) && IsValidLabels(c, pr)
  }

  /** The title rule looks at the title only through its lower-cased form. */
  lemma {:induction false} TitleRuleIgnoresCase(c: Config, pr: PullRequest)
    ensures IsValidTitle(c, pr.(title := Lower(pr.title))) == IsValidTitle(c, pr)
  {
    LowerIdempotent(pr.title);
  }

  /** The empty keyword, which a whitespace-only comma piece produces, occurs
      in every title: it rejects every record. */
  lemma {:induction false} EmptyIgnoreWordRejectsAll(c: Config, pr: PullRequest)
    requires "" in c.ignoreTitleWords
    ensures !IsValidTitle(c, pr)
  {
    EmptyIsSubstring(Lower(pr.title));
  }

  /** Likewise the empty include keyword accepts every record that has a label. */
  lemma {:induction false} EmptyIncludeWordAcceptsLabelled(c: Config, pr: PullRequest)
    requires "" in c.includeLabels && pr.labels != []
    ensures IsValidLabels(c, pr)
  {
    EmptyIsSubstring(Lower(pr.labels[0]));
  }

  /** Ignore word "wip" excludes a record titled "WIP: add feature". */
  lemma {:induction false} IgnoreWordExample(c: Config, pr: PullRequest)
    requires c.ignoreTitleWords == ["wip"] && pr.title == "WIP: add feature"
    ensures !Accepts(c, pr)
  {
    assert "wip" <= Lower(pr.title)[0..];
  }

  /** Include word "bug" matches the label "Bug-Critical". */
  lemma {:induction false} IncludeLabelExample(c: Config, pr: PullRequest)
    requires c.includeLabels == ["bug"] && pr.labels == ["Bug-Critical"]
    ensures IsValidLabels(c, pr)
  {
    assert "bug" <= Lower(pr.labels[0])[0..];
  }
}
