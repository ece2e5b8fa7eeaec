/** The pure part of pull_reminder/github_data_provider.py: selecting
    repositories, keeping open pulls and turning each into a `PullRequest`
    record. The GitHub objects the client library returns are plain values here;
    the clock is the parameter `now` (seconds since the epoch). */
module GitHubData {
  import opened Seqs
  import opened Text

  datatype Label = Label(name: string)

  /** A review: its state ("APPROVED", "CHANGES_REQUESTED", ...) and the
      reviewer's login. */
  datatype Review = Review(state: string, login: string)

  /** A pull request as the API returns it in full detail. */
  datatype Pull = Pull(
    number: nat,
    state: string,
    login: string,
    htmlUrl: string,
    title: string,
    labels: seq<Label>,
    mergeable: bool,
    updatedAt: int,
    reviews: seq<Review>)

  /** A repository of the organization with its pulls in listing order. */
  datatype Repository = Repository(name: string, pulls: seq<Pull>)

  /** The immutable record the pipeline passes around. */
  datatype PullRequest = PullRequest(
    repositoryName: string,
    creator: string,
    url: string,
    title: string,
    ageHrs: int,
    labels: seq<string>,
    mergeable: bool,
    reviewStatus: map<string, seq<string>>)

  const SecondsPerHour: int := 3600

  /** `is_required_fetch`: the lower-cased repository name is one of the
      configured names (exact membership, not a substring test). */
  predicate IsRequiredFetch(required: seq<string>, repo: Repository) {
    Lower(repo.name) in required
  }

  /** Repository names that differ only in letter case are selected together,
      and an empty list selects nothing. */
  lemma IsRequiredFetchProperties(required: seq<string>, repo: Repository, other: Repository)
    ensures required == [] ==> !IsRequiredFetch(required, repo)
    ensures Lower(repo.name) == Lower(other.name) ==>
              (IsRequiredFetch(required, repo) <==> IsRequiredFetch(required, other))
    ensures IsRequiredFetch(required, repo) <==> exists i :: 0 <= i < |required| && required[i] == Lower(repo.name)
  {
  }

  predicate IsOpen(pull: Pull) {
    pull.state == "open"
  }

  /** `get_repository_open_prs`: the pulls whose state is "open", in listing order. */
  function GetRepositoryOpenPrs(repo: Repository): (open: seq<Pull>)
    ensures forall i :: 0 <= i < |open| ==> open[i].state == "open"
    ensures forall p :: p in open <==> p in repo.pulls && p.state == "open"
    ensures forall p :: multiset(open)[p] == if p.state == "open" then multiset(repo.pulls)[p] else 0
    ensures IsSubsequence(open, repo.pulls)
  {
    FilterIsSubsequence(IsOpen, repo.pulls);
    FilterMembers(IsOpen, repo.pulls);
    FilterMultiset(IsOpen, repo.pulls);
    Filter(IsOpen, repo.pulls)
  }

  /** `_get_pr_age`: whole hours in `elapsed` seconds, rounded down
      (`divmod(elapsed, 3600)[0]`, which floors also for negative `elapsed`). */
  function AgeHours(elapsed: int): (hours: int)
    ensures hours * SecondsPerHour <= elapsed < (hours + 1) * SecondsPerHour
    ensures elapsed >= 0 ==> hours >= 0
  {
    elapsed / SecondsPerHour
  }

  /** The bounds of `AgeHours` determine it: it is the floor of elapsed / 3600. */
  lemma AgeHoursUnique(elapsed: int, hours: int)
    requires hours * SecondsPerHour <= elapsed < (hours + 1) * SecondsPerHour
    ensures hours == AgeHours(elapsed)
  {
  }

  /** `_get_pr_labels`: the label names in their original order. */
  function LabelNames(labels: seq<Label>): (names: seq<string>)
    ensures |names| == |labels|
    ensures forall i :: 0 <= i < |labels| ==> names[i] == labels[i].name
  {
    Map((l: Label) => l.name, labels)
  }

  /** The review states that occur in `reviews`. */
  ghost function States(reviews: seq<Review>): set<string> {
    set i | 0 <= i < |reviews| :: reviews[i].state
  }

  predicate HasState(state: string, r: Review) {
    r.state == state
  }

  /** The logins of the reviews left in `state`, in review order, repeats kept. */
  function LoginsWithState(reviews: seq<Review>, state: string): seq<string> {
    Map((r: Review) => r.login, Filter((r: Review) => HasState(state, r), reviews))
  }

  /** `_get_pr_review_statuses`: the loop over the reviews, one review at a
      time, appending the reviewer to the list of the review's state. */
  function ReviewStatuses(reviews: seq<Review>): (statuses: map<string, seq<string>>)
    ensures statuses.Keys == States(reviews)
    decreases |reviews|
  {
    if reviews == [] then map[]
    else
      var prefix := reviews[..|reviews| - 1];
      var m := ReviewStatuses(prefix);
      var r := reviews[|reviews| - 1];
      assert reviews == prefix + [r];
      assert States(reviews) == States(prefix) + {r.state};
      m[r.state := (if r.state in m then m[r.state] else []) + [r.login]]
  }

  lemma {:induction false} LoginsWithStateSnoc(prefix: seq<Review>, r: Review, state: string)
    ensures LoginsWithState(prefix + [r], state) ==
              LoginsWithState(prefix, state) + (if r.state == state then [r.login] else [])
  {
    var f := (x: Review) => HasState(state, x);
    var g := (x: Review) => x.login;
    FilterAppend(f, prefix, [r]);
    FilterSingleton(f, r);
    MapAppend(g, Filter(f, prefix), Filter(f, [r]));
    assert Map(g, [r]) == [r.login];
  }

  /** Each state's list holds the logins of exactly the reviews in that state,
      in review order and without deduplication. */
  lemma {:induction false} ReviewStatusesLists(reviews: seq<Review>)
    ensures forall s :: s in ReviewStatuses(reviews) ==> ReviewStatuses(reviews)[s] == LoginsWithState(reviews, s)
    decreases |reviews|
  {
    if reviews != [] {
      var prefix := reviews[..|reviews| - 1];
      var r := reviews[|reviews| - 1];
      assert reviews == prefix + [r];
      ReviewStatusesLists(prefix);
      forall s | s in ReviewStatuses(reviews)
        ensures ReviewStatuses(reviews)[s] == LoginsWithState(reviews, s)
      {
        ReviewStatusesStep(prefix, r, s);
      }
    }
  }

  lemma {:induction false} ReviewStatusesStep(prefix: seq<Review>, r: Review, s: string)
    requires forall t :: t in ReviewStatuses(prefix) ==> ReviewStatuses(prefix)[t] == LoginsWithState(prefix, t)
    requires s in ReviewStatuses(prefix + [r])
    ensures ReviewStatuses(prefix + [r])[s] == LoginsWithState(prefix + [r], s)
  {
    var reviews := prefix + [r];
    assert reviews[..|reviews| - 1] == prefix;
    var m := ReviewStatuses(prefix);
    var m' := ReviewStatuses(reviews);
    assert m' == m[r.state := (if r.state in m then m[r.state] else []) + [r.login]];
    LoginsWithStateSnoc(prefix, r, s);
    if s !in m {
      assert forall i :: 0 <= i < |prefix| ==> prefix[i].state in States(prefix);
      FilterNone((x: Review) => HasState(s, x), prefix);
    }
  }

  /** The sum of the list lengths of `m` over `keys`. */
  ghost function SumLengths(m: map<string, seq<string>>, keys: set<string>): nat
    requires keys <= m.Keys
    decreases keys
  {
    if keys == {} then 0
    else
      var k :| k in keys;
      |m[k]| + SumLengths(m, keys - {k})
  }

  lemma {:induction false} SumLengthsRemove(m: map<string, seq<string>>, keys: set<string>, k: string)
    requires keys <= m.Keys && k in keys
    ensures SumLengths(m, keys) == |m[k]| + SumLengths(m, keys - {k})
    decreases keys
  {
    var j :| j in keys && SumLengths(m, keys) == |m[j]| + SumLengths(m, keys - {j});
    if j != k {
      SumLengthsRemove(m, keys - {j}, k);
      SumLengthsRemove(m, keys - {k}, j);
      assert keys - {j} - {k} == keys - {k} - {j};
    }
  }

  lemma {:induction false} SumLengthsFrame(m: map<string, seq<string>>, n: map<string, seq<string>>, keys: set<string>)
    requires keys <= m.Keys && keys <= n.Keys
    requires forall k :: k in keys ==> m[k] == n[k]
    ensures SumLengths(m, keys) == SumLengths(n, keys)
    decreases keys
  {
    if keys != {} {
      var k :| k in keys && SumLengths(m, keys) == |m[k]| + SumLengths(m, keys - {k});
      SumLengthsRemove(n, keys, k);
      SumLengthsFrame(m, n, keys - {k});
    }
  }

  /** Every review is counted once: the lists together are as long as the reviews. */
  lemma {:induction false} ReviewStatusesTotal(reviews: seq<Review>)
    ensures SumLengths(ReviewStatuses(reviews), ReviewStatuses(reviews).Keys) == |reviews|
    decreases |reviews|
  {
    if reviews != [] {
      var prefix := reviews[..|reviews| - 1];
      var r := reviews[|reviews| - 1];
      var m := ReviewStatuses(prefix);
      var m' := ReviewStatuses(reviews);
      ReviewStatusesTotal(prefix);
      var old_ := if r.state in m then m[r.state] else [];
      assert m' == m[r.state := old_ + [r.login]];
      SumLengthsRemove(m', m'.Keys, r.state);
      var rest := m.Keys - {r.state};
      assert m'.Keys - {r.state} == rest;
      SumLengthsFrame(m, m', rest);
      if r.state in m {
        SumLengthsRemove(m, m.Keys, r.state);
      } else {
        assert rest == m.Keys;
      }
    }
  }

  /** `build_pr_object`: the record for one open pull of `repo`. */
  function BuildPrObject(repo: Repository, pull: Pull, now: int): (pr: PullRequest)
    ensures pr.repositoryName == repo.name && pr.creator == pull.login
    ensures pr.url == pull.htmlUrl && pr.title == pull.title && pr.mergeable == pull.mergeable
    ensures |pr.labels| == |pull.labels| && forall i :: 0 <= i < |pull.labels| ==> pr.labels[i] == pull.labels[i].name
    ensures pr.ageHrs * SecondsPerHour <= now - pull.updatedAt < (pr.ageHrs + 1) * SecondsPerHour
    ensures pr.reviewStatus.Keys == States(pull.reviews)
  {
    PullRequest(
      repositoryName := repo.name,
      creator := pull.login,
      url := pull.htmlUrl,
      title := pull.title,
      ageHrs := AgeHours(now - pull.updatedAt),
      labels := LabelNames(pull.labels),
      mergeable := pull.mergeable,
      reviewStatus := ReviewStatuses(pull.reviews))
  }

  /** `_expand_repository_pulls`: one record per open pull, in listing order. */
  function ExpandRepositoryPulls(repo: Repository, now: int): (prs: seq<PullRequest>)
    ensures |prs| == |GetRepositoryOpenPrs(repo)|
    ensures forall i :: 0 <= i < |prs| ==> prs[i] == BuildPrObject(repo, GetRepositoryOpenPrs(repo)[i], now)
    ensures forall i :: 0 <= i < |prs| ==> prs[i].repositoryName == repo.name
  {
    Map((p: Pull) => BuildPrObject(repo, p, now), GetRepositoryOpenPrs(repo))
  }

  /** `build_prs_state`: filter the organization's repositories, expand each
      into its records, concatenate. */
  function BuildPrsState(repos: seq<Repository>, required: seq<string>, now: int): (prs: seq<PullRequest>)
    ensures required == [] ==> prs == []
    ensures forall pr :: pr in prs ==>
              exists i :: 0 <= i < |repos| && IsRequiredFetch(required, repos[i]) && pr.repositoryName == repos[i].name
  {
    var selected := Filter((r: Repository) => IsRequiredFetch(required, r), repos);
    var blocks := Map((r: Repository) => ExpandRepositoryPulls(r, now), selected);
    FilterMembers((r: Repository) => IsRequiredFetch(required, r), repos);
    Flatten(blocks)
  }

  /** The records of a repository list are those of its first part followed
      by those of the rest: repository order is kept, nothing is re-sorted. */
  lemma {:induction false} BuildPrsStateAppend(a: seq<Repository>, b: seq<Repository>, required: seq<string>, now: int)
    ensures BuildPrsState(a + b, required, now) == BuildPrsState(a, required, now) + BuildPrsState(b, required, now)
  {
    var f := (r: Repository) => IsRequiredFetch(required, r);
    var g := (r: Repository) => ExpandRepositoryPulls(r, now);
    FilterAppend(f, a, b);
    MapAppend(g, Filter(f, a), Filter(f, b));
    FlattenAppend(Map(g, Filter(f, a)), Map(g, Filter(f, b)));
  }

  /** A single repository contributes its open pulls when selected, else nothing. */
  lemma {:induction false} BuildPrsStateSingle(repo: Repository, required: seq<string>, now: int)
    ensures BuildPrsState([repo], required, now) ==
              if IsRequiredFetch(required, repo) then ExpandRepositoryPulls(repo, now) else []
  {
    var f := (r: Repository) => IsRequiredFetch(required, r);
    var g := (r: Repository) => ExpandRepositoryPulls(r, now);
    FilterSingleton(f, repo);
    if f(repo) {
      assert Map(g, [repo]) == [g(repo)];
      assert Flatten([g(repo)]) == g(repo) + Flatten([]);
    }
  }
}
