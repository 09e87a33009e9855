/**
 * The in-process orchestrator (internal/code_reviewer/code_reviewer.go): the
 * pull-request events the webhook queues are reviewed one after the other;
 * each review clones, parses, embeds, downloads the diff and asks the
 * assistant, and its result is posted as a comment. The first failure of any
 * event ends the loop for good.
 *
 * The stage collaborators' outcomes are inputs, and the calls are recorded
 * with the service's `Effect`s. This pipeline never passes a project id, and
 * it never cleans up a checkout.
 */
module LegacyReviewer {
  import opened Errors
  import opened Strings
  import opened Models
  import opened Events
  import EventProcessor

  type Effect = EventProcessor.Effect

  // ---- The nil-safe getters the orchestrator reads the webhook payload with ----

  function CloneURLOf(e: GitHubPullRequestEvent): string {
    if e.repo.Some? then Get(e.repo.value.cloneURL) else ""
  }

  function FullNameOf(e: GitHubPullRequestEvent): string {
    if e.repo.Some? then Get(e.repo.value.fullName) else ""
  }

  function BranchOf(e: GitHubPullRequestEvent): string {
    if e.pullRequest.Some? then HeadRef(e.pullRequest.value) else ""
  }

  function DiffURLOf(e: GitHubPullRequestEvent): string {
    if e.pullRequest.Some? then Get(e.pullRequest.value.diffURL) else ""
  }

  /** The outcomes of the stage collaborators for one event. */
  datatype Stages = Stages(
    clone: Result<string>,          // the checkout directory, or the clone error
    parse: Result<seq<Snippet>>,    // the project's snippets, or the parse error
    embed: Option<Error>,           // the embedder's error
    download: Result<string>,       // the diff, or the download error
    review: Result<string>)         // the assistant's answer, or its error

  /** The result of `reviewCode` and the calls it makes. */
  datatype Reviewed = Reviewed(result: Result<string>, trace: seq<Effect>)

  /** `reviewCode`: the stages in order, up to the first failure. */
  function Review(event: GitHubPullRequestEvent, s: Stages): Reviewed {
    var cloned := [EventProcessor.Clone(CloneURLOf(event), BranchOf(event))];
    if s.clone.Err? then Reviewed(Err(s.clone.error), cloned)
    else
      var parsed := cloned + [EventProcessor.Parse(s.clone.value)];
      if s.parse.Err? then Reviewed(Err(s.parse.error), parsed)
      else if |s.parse.value| == 0 then Reviewed(Err(NoSnippetFound), parsed)
      else
        var embedded := parsed + [EventProcessor.Embed(None, s.parse.value)];
        if s.embed.Some? then Reviewed(Err(s.embed.value), embedded)
        else
          var downloaded := embedded + [EventProcessor.Download(DiffURLOf(event))];
          if s.download.Err? then Reviewed(Err(s.download.error), downloaded)
          else Reviewed(s.review, downloaded + [EventProcessor.Review(TaskCodeReview, s.download.value, None)])
  }

  method ReviewCode(event: GitHubPullRequestEvent, s: Stages) returns (r: Result<string>, trace: seq<Effect>)
    ensures Reviewed(r, trace) == Review(event, s)
  {
    trace := [EventProcessor.Clone(CloneURLOf(event), BranchOf(event))];
    if s.clone.Err? {
      return Err(s.clone.error), trace;
    }
    var repoPath := s.clone.value;
    trace := trace + [EventProcessor.Parse(repoPath)];
    if s.parse.Err? {
      return Err(s.parse.error), trace;
    }
    var snippets := s.parse.value;
    if |snippets| == 0 {
      return Err(NoSnippetFound), trace;
    }
    trace := trace + [EventProcessor.Embed(None, snippets)];
    if s.embed.Some? {
      return Err(s.embed.value), trace;
    }
    trace := trace + [EventProcessor.Download(DiffURLOf(event))];
    if s.download.Err? {
      return Err(s.download.error), trace;
    }
    var diff := s.download.value;
    trace := trace + [EventProcessor.Review(TaskCodeReview, diff, None)];
    r := s.review;
  }

  /** The error stage `k` of `reviewCode` ends the review with; `None` when it succeeds. */
  function StageFailure(s: Stages, k: nat): Option<Error> {
    if k == 0 then (if s.clone.Err? then Some(s.clone.error) else None)
    else if k == 1 then
      (if s.parse.Err? then Some(s.parse.error) else if |s.parse.value| == 0 then Some(NoSnippetFound) else None)
    else if k == 2 then s.embed
    else if k == 3 then (if s.download.Err? then Some(s.download.error) else None)
    else if k == 4 then (if s.review.Err? then Some(s.review.error) else None)
    else None
  }

  /**
   * The stages run in the service's order, each at most once, and stop at the
   * first failure, whose error is the result; the review succeeds only when
   * all five ran. No cleanup is ever called and no project id is passed.
   */
  lemma ReviewStopsAtFirstFailure(event: GitHubPullRequestEvent, s: Stages)
    ensures var r := Review(event, s);
      |r.trace| >= 1
      && (forall i :: 0 <= i < |r.trace| ==> EventProcessor.Rank(r.trace[i]) == i)
      && (forall k :: 0 <= k < |r.trace| - 1 ==> StageFailure(s, k).None?)
      && (r.result.Err? <==> StageFailure(s, |r.trace| - 1).Some?)
      && (r.result.Err? ==> StageFailure(s, |r.trace| - 1) == Some(r.result.error))
      && (r.result.Ok? ==> |r.trace| == 5)
    ensures forall e :: e in Review(event, s).trace ==> !e.Cleanup?
    ensures forall e :: e in Review(event, s).trace && (e.Embed? || e.Review?) ==> e.projectId.None?
  {
  }

  // ---- The loop over the queue ----

  /** One queued event with the outcomes of its stages and of its comment. */
  datatype Delivery = Delivery(event: GitHubPullRequestEvent, stages: Stages, post: Option<Error>)

  /** What the loop body does with one event: whether the loop goes on, and the calls made. */
  datatype Handled = Handled(ok: bool, trace: seq<Effect>)

  function Handle(d: Delivery): Handled {
    var r := Review(d.event, d.stages);
    if r.result.Err? then Handled(false, r.trace)
    else
      var parts := Split(FullNameOf(d.event), '/');
      if |parts| != 2 then Handled(false, r.trace)
      else Handled(d.post.None?, r.trace + [EventProcessor.Post(GetInt(d.event.number), r.result.value, parts[0], parts[1])])
  }

  /** The calls of the events handled, one after the other. */
  function Traces(ds: seq<Delivery>): seq<Effect> {
    if ds == [] then [] else Handle(ds[0]).trace + Traces(ds[1..])
  }

  lemma {:induction false} TracesSnoc(ds: seq<Delivery>, d: Delivery)
    ensures Traces(ds + [d]) == Traces(ds) + Handle(d).trace
  {
    if ds == [] {
      assert [] + [d] == [d];
    } else {
      assert (ds + [d])[1..] == ds[1..] + [d];
      TracesSnoc(ds[1..], d);
    }
  }

  /** The body of the loop for one event: review, split the full name, post. */
  method HandleEvent(d: Delivery) returns (ok: bool, trace: seq<Effect>)
    ensures Handled(ok, trace) == Handle(d)
  {
    var review, reviewTrace := ReviewCode(d.event, d.stages);
    trace := reviewTrace;
    if review.Err? {
      return false, trace;
    }
    var parts := Split(FullNameOf(d.event), '/');
    if |parts| != 2 {
      return false, trace;
    }
    var owner, repo := parts[0], parts[1];
    trace := trace + [EventProcessor.Post(GetInt(d.event.number), review.value, owner, repo)];
    ok := d.post.None?;
  }

  /**
   * `Start` over the events queued so far: they are handled in order until
   * one fails, which ends the loop (`stopped`); if none fails the loop is
   * still waiting for the next event. `handled` events were taken from the
   * queue.
   */
  method Start(deliveries: seq<Delivery>) returns (stopped: bool, handled: nat, trace: seq<Effect>)
    ensures handled <= |deliveries| && trace == Traces(deliveries[..handled])
    ensures forall i :: 0 <= i < handled && (i < handled - 1 || !stopped) ==> Handle(deliveries[i]).ok
    ensures stopped ==> handled >= 1 && !Handle(deliveries[handled - 1]).ok
    ensures !stopped ==> handled == |deliveries|
  {
    trace := [];
    handled := 0;
    while handled < |deliveries|
      invariant handled <= |deliveries| && trace == Traces(deliveries[..handled])
      invariant forall i :: 0 <= i < handled ==> Handle(deliveries[i]).ok
    {
      var ok, eventTrace := HandleEvent(deliveries[handled]);
      assert deliveries[..handled + 1] == deliveries[..handled] + [deliveries[handled]];
      TracesSnoc(deliveries[..handled], deliveries[handled]);
      trace := trace + eventTrace;
      handled := handled + 1;
      if !ok {
        return true, handled, trace;
      }
    }
    stopped := false;
  }

  /**
   * The comment of a handled event is its review, posted on the event's
   * number to the owner and repository its full name splits into.
   */
  lemma PostsToFullName(d: Delivery, e: Effect)
    requires e in Handle(d).trace && e.Post?
    ensures Review(d.event, d.stages).result.Ok? && e.body == Review(d.event, d.stages).result.value
    ensures e.number == GetInt(d.event.number)
    ensures e.owner + "/" + e.repo == FullNameOf(d.event) && '/' !in e.owner && '/' !in e.repo
  {
    ReviewStopsAtFirstFailure(d.event, d.stages);
    var parts := Split(FullNameOf(d.event), '/');
    assert |parts| == 2;
    assert Join(parts, '/') == parts[0] + "/" + parts[1] by {
      assert parts[1..] == [parts[1]];
    }
  }
}
