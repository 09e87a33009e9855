/**
 * Pull-request events: the conversion of a GitHub webhook payload into the
 * pipeline's own event record (internal/vsc/models.go and the identical
 * converter of services/api-gateway/api/github-webhook.go) and the project
 * identifier derived from an event (services/api-gateway/pkg/models/event.go).
 *
 * Go pointers that may be nil become `Option`s; a nil-safe getter of the
 * GitHub library returns the zero value of its type for a nil receiver or
 * field, which `Get` and `GetInt` write out.
 */
module Events {
  import opened Errors
  import opened Strings

  // ---- The part of a GitHub webhook payload the converter reads ----

  datatype GitHubUser = GitHubUser(login: Option<string>)
  datatype GitHubBranch = GitHubBranch(ref: Option<string>)
  datatype GitHubOwner = GitHubOwner(login: Option<string>)
  datatype GitHubPullRequest = GitHubPullRequest(
    number: Option<int>, title: Option<string>, user: Option<GitHubUser>,
    head: Option<GitHubBranch>, diffURL: Option<string>)
  datatype GitHubRepo = GitHubRepo(fullName: Option<string>, cloneURL: Option<string>, owner: Option<GitHubOwner>)
  /** The payload: its own `number` field, the pull request, the repository. */
  datatype GitHubPullRequestEvent = GitHubPullRequestEvent(
    number: Option<int>, pullRequest: Option<GitHubPullRequest>, repo: Option<GitHubRepo>)

  /** A nil-safe string getter: the empty string for a nil field. */
  function Get(s: Option<string>): string {
    if s.Some? then s.value else ""
  }

  /** A nil-safe int getter: zero for a nil field. */
  function GetInt(n: Option<int>): int {
    if n.Some? then n.value else 0
  }

  function Author(pr: GitHubPullRequest): string {
    if pr.user.Some? then Get(pr.user.value.login) else ""
  }

  function HeadRef(pr: GitHubPullRequest): string {
    if pr.head.Some? then Get(pr.head.value.ref) else ""
  }

  /** `PullRequestEvent`, the record the pipeline passes around. */
  datatype PullRequestEvent = PullRequestEvent(
    owner: string, repo: string, number: int, cloneURL: string,
    branch: string, title: string, author: string, diffURL: string)

  /** The nil checks of the converter: the payload, its pull request, its repository and the repository's owner. */
  predicate Complete(event: Option<GitHubPullRequestEvent>) {
    event.Some? && event.value.pullRequest.Some? && event.value.repo.Some? && event.value.repo.value.owner.Some?
  }

  /**
   * `ConvertGitHubEvent` / `convertGitHubEvent`: nil for an incomplete payload
   * or a full name that does not split on "/" into exactly two parts;
   * otherwise owner and repository are the two parts, and the other fields are
   * read with the nil-safe getters.
   */
  function ConvertGitHubEvent(event: Option<GitHubPullRequestEvent>): (r: Option<PullRequestEvent>)
    ensures r.Some? <==> Complete(event) && Count(Get(event.value.repo.value.fullName), '/') == 1
    ensures r.Some? ==> r.value.owner + "/" + r.value.repo == Get(event.value.repo.value.fullName)
    ensures r.Some? ==> '/' !in r.value.owner && '/' !in r.value.repo
    ensures r.Some? ==>
      var pr := event.value.pullRequest.value;
      r.value.number == GetInt(pr.number) && r.value.cloneURL == Get(event.value.repo.value.cloneURL)
      && r.value.branch == HeadRef(pr) && r.value.title == Get(pr.title)
      && r.value.author == Author(pr) && r.value.diffURL == Get(pr.diffURL)
  {
    if !Complete(event) then None
    else
      var e := event.value;
      var parts := Split(Get(e.repo.value.fullName), '/');
      if |parts| != 2 then None
      else
        assert Join(parts, '/') == parts[0] + "/" + parts[1] by {
          assert parts[1..] == [parts[1]];
        }
        var pr := e.pullRequest.value;
        Some(PullRequestEvent(
          parts[0], parts[1], GetInt(pr.number), Get(e.repo.value.cloneURL),
          HeadRef(pr), Get(pr.title), Author(pr), Get(pr.diffURL)))
  }

  /**
   * Round trip: a complete payload whose full name is `owner/repo`, neither
   * part holding a '/', converts to an event with exactly that owner and
   * repository.
   */
  lemma ConvertRecoversOwnerAndRepo(event: GitHubPullRequestEvent, owner: string, repo: string)
    requires Complete(Some(event))
    requires event.repo.value.fullName == Some(owner + "/" + repo)
    requires '/' !in owner && '/' !in repo
    ensures ConvertGitHubEvent(Some(event)).Some?
    ensures ConvertGitHubEvent(Some(event)).value.owner == owner
    ensures ConvertGitHubEvent(Some(event)).value.repo == repo
  {
    var parts := [owner, repo];
    assert Join(parts, '/') == owner + "/" + repo by {
      assert parts[1..] == [repo];
    }
    SplitJoin(parts, '/');
  }

  /** `GetProjectIdentifier`: `owner/repo/branch/number`, the number in `%d` form. */
  function GetProjectIdentifier(pr: PullRequestEvent): (id: string)
    ensures id == Join([pr.owner, pr.repo, pr.branch, Decimal(pr.number)], '/')
  {
    var d := Decimal(pr.number);
    assert Join([pr.branch, d], '/') == pr.branch + "/" + d by {
      assert [pr.branch, d][1..] == [d];
    }
    assert Join([pr.repo, pr.branch, d], '/') == pr.repo + "/" + (pr.branch + "/" + d) by {
      assert [pr.repo, pr.branch, d][1..] == [pr.branch, d];
    }
    assert Join([pr.owner, pr.repo, pr.branch, d], '/') == pr.owner + "/" + (pr.repo + "/" + (pr.branch + "/" + d)) by {
      assert [pr.owner, pr.repo, pr.branch, d][1..] == [pr.repo, pr.branch, d];
    }
    pr.owner + "/" + pr.repo + "/" + pr.branch + "/" + Decimal(pr.number)
  }

  /** Only owner, repository, branch and number enter the identifier. */
  lemma IdentifierIgnoresOtherFields(a: PullRequestEvent, b: PullRequestEvent)
    requires a.owner == b.owner && a.repo == b.repo && a.branch == b.branch && a.number == b.number
    ensures GetProjectIdentifier(a) == GetProjectIdentifier(b)
  {
  }

  /** A '/'-free owner, repository and branch make an identifier that splits back into its four parts. */
  lemma IdentifierSplits(pr: PullRequestEvent)
    requires '/' !in pr.owner && '/' !in pr.repo && '/' !in pr.branch
    ensures Split(GetProjectIdentifier(pr), '/') == [pr.owner, pr.repo, pr.branch, Decimal(pr.number)]
  {
    var d := Decimal(pr.number);
    assert forall i :: 0 <= i < |d| ==> d[i] != '/';
    SplitJoin([pr.owner, pr.repo, pr.branch, d], '/');
  }

  /**
   * Under the same condition the identifier names one project: two events
   * with the same identifier have the same owner, repository, branch and
   * number.
   */
  lemma IdentifierInjective(a: PullRequestEvent, b: PullRequestEvent)
    requires '/' !in a.owner && '/' !in a.repo && '/' !in a.branch
    requires '/' !in b.owner && '/' !in b.repo && '/' !in b.branch
    requires GetProjectIdentifier(a) == GetProjectIdentifier(b)
    ensures a.owner == b.owner && a.repo == b.repo && a.branch == b.branch && a.number == b.number
  {
    IdentifierSplits(a);
    IdentifierSplits(b);
    var pa := [a.owner, a.repo, a.branch, Decimal(a.number)];
    var pb := [b.owner, b.repo, b.branch, Decimal(b.number)];
    assert pa == pb;
    assert pa[3] == pb[3];
    DecimalRoundTrip(a.number);
    DecimalRoundTrip(b.number);
  }
}
