/**
 * The review service's event processor
 * (services/code-reviewer/internal/event-processor/event-processor.go): one
 * worker handling one message of the pull-request topic, and the stage
 * machine `process` runs for it.
 *
 * Every stage is a collaborator whose outcome is an input (`Stages`). What
 * the processor asks of them, in order, is recorded as a trace of `Effect`s;
 * what the message handler does is recorded as `Action`s.
 *
 * The code passes no project id to the embedder and the assistant, although
 * both require one. `scope` is the project id each call carries: `None` is
 * the code as written, `Some(id)` the intended call with the event's project
 * identifier. `RunStages`, `Process` and `HandleMessage` take the scope as a
 * parameter, so both readings are modelled by the same methods.
 */
module EventProcessor {
  import opened Errors
  import opened Models
  import opened Events

  /** The outcomes of the stage collaborators for one event. */
  datatype Stages = Stages(
    clone: Result<string>,          // the checkout directory, or the clone error
    parse: Result<seq<Snippet>>,    // the project's snippets, or the parse error
    embed: Option<Error>,           // the embedder's error
    download: Result<string>,       // the diff, or the download error
    review: Result<string>,         // the assistant's review, or its error
    post: Option<Error>)            // the comment's error

  /** A call the processor makes, with its arguments. */
  datatype Effect =
    | Clone(cloneURL: string, branch: string)
    | Parse(repoPath: string)
    | Embed(projectId: Option<string>, snippets: seq<Snippet>)
    | Download(diffURL: string)
    | Review(task: Task, diff: string, projectId: Option<string>)
    | Post(number: int, body: string, owner: string, repo: string)
    | Cleanup(repoPath: string)

  /** The position of a call in the stage order; the deferred cleanup comes after all of them. */
  function Rank(e: Effect): nat {
    match e
    case Clone(_, _) => 0
    case Parse(_) => 1
    case Embed(_, _) => 2
    case Download(_) => 3
    case Review(_, _, _) => 4
    case Post(_, _, _, _) => 5
    case Cleanup(_) => 6
  }

  /** The error stage `k` ends the event with, given the outcomes; `None` when it succeeds. */
  function StageFailure(s: Stages, k: nat): Option<Error> {
    if k == 0 then (if s.clone.Err? then Some(s.clone.error) else None)
    else if k == 1 then
      (if s.parse.Err? then Some(s.parse.error) else if |s.parse.value| == 0 then Some(NoSnippetFound) else None)
    else if k == 2 then s.embed
    else if k == 3 then (if s.download.Err? then Some(s.download.error) else None)
    else if k == 4 then (if s.review.Err? then Some(s.review.error) else None)
    else if k == 5 then s.post
    else None
  }

  /** What `process` returns and the calls it makes. */
  datatype Run = Run(err: Option<Error>, trace: seq<Effect>)

  /** The stages after a successful clone, up to the first failure (the body `defer cleanup()` runs after). */
  function AfterClone(event: PullRequestEvent, scope: Option<string>, repoPath: string, s: Stages): Run {
    var parsed := [Parse(repoPath)];
    if s.parse.Err? then Run(Some(s.parse.error), parsed)
    else if |s.parse.value| == 0 then Run(Some(NoSnippetFound), parsed)
    else
      var embedded := parsed + [Embed(scope, s.parse.value)];
      if s.embed.Some? then Run(s.embed, embedded)
      else
        var downloaded := embedded + [Download(event.diffURL)];
        if s.download.Err? then Run(Some(s.download.error), downloaded)
        else
          var reviewed := downloaded + [Review(TaskCodeReview, s.download.value, scope)];
          if s.review.Err? then Run(Some(s.review.error), reviewed)
          else Run(s.post, reviewed + [Post(event.number, s.review.value, event.owner, event.repo)])
  }

  /** `process` with the project id the embedder and the assistant are given. */
  function Pipeline(event: PullRequestEvent, scope: Option<string>, s: Stages): Run {
    var cloned := [Clone(event.cloneURL, event.branch)];
    if s.clone.Err? then Run(Some(s.clone.error), cloned)
    else
      var rest := AfterClone(event, scope, s.clone.value, s);
      Run(rest.err, cloned + rest.trace + [Cleanup(s.clone.value)])
  }

  /** `process` as written: the embedder and the assistant are called without a project id. */
  function PipelineAsWritten(event: PullRequestEvent, s: Stages): Run {
    Pipeline(event, None, s)
  }

  /** The stage sequence of `process` after the clone, each error returned as it is. */
  method RunStages(event: PullRequestEvent, scope: Option<string>, repoPath: string, s: Stages)
    returns (err: Option<Error>, trace: seq<Effect>)
    ensures Run(err, trace) == AfterClone(event, scope, repoPath, s)
  {
    trace := [Parse(repoPath)];
    if s.parse.Err? {
      return Some(s.parse.error), trace;
    }
    var snippets := s.parse.value;
    if |snippets| == 0 {
      return Some(NoSnippetFound), trace;
    }
    trace := trace + [Embed(scope, snippets)];
    if s.embed.Some? {
      return s.embed, trace;
    }
    trace := trace + [Download(event.diffURL)];
    if s.download.Err? {
      return Some(s.download.error), trace;
    }
    var diff := s.download.value;
    trace := trace + [Review(TaskCodeReview, diff, scope)];
    if s.review.Err? {
      return Some(s.review.error), trace;
    }
    var review := s.review.value;
    trace := trace + [Post(event.number, review, event.owner, event.repo)];
    return s.post, trace;
  }

  /**
   * `process`: clone, then the stages, then the deferred cleanup of the
   * checkout, which runs however the stages end; a clone error ends the event
   * with nothing to clean up.
   */
  method Process(event: PullRequestEvent, scope: Option<string>, s: Stages) returns (err: Option<Error>, trace: seq<Effect>)
    ensures Run(err, trace) == Pipeline(event, scope, s)
  {
    trace := [Clone(event.cloneURL, event.branch)];
    if s.clone.Err? {
      return Some(s.clone.error), trace;
    }
    var repoPath := s.clone.value;
    var stagesErr, stagesTrace := RunStages(event, scope, repoPath, s);
    trace := trace + stagesTrace + [Cleanup(repoPath)];
    err := stagesErr;
  }

  /** The stage calls of a run, without the deferred cleanup. */
  function StageCalls(r: Run, s: Stages): seq<Effect>
    requires s.clone.Ok? ==> |r.trace| >= 1
  {
    if s.clone.Ok? then r.trace[..|r.trace| - 1] else r.trace
  }

  /**
   * The stage machine: the stages run in their fixed order, each at most
   * once, and stop at the first one that fails, whose error is returned
   * unchanged; every earlier stage succeeded, and the event succeeds only
   * when all six stages ran.
   */
  lemma PipelineStopsAtFirstFailure(event: PullRequestEvent, scope: Option<string>, s: Stages)
    ensures var r := Pipeline(event, scope, s);
      (s.clone.Ok? ==> |r.trace| >= 1)
      && var calls := StageCalls(r, s);
      |calls| >= 1
      && (forall i :: 0 <= i < |calls| ==> Rank(calls[i]) == i)
      && (forall k :: 0 <= k < |calls| - 1 ==> StageFailure(s, k).None?)
      && r.err == StageFailure(s, |calls| - 1)
      && (r.err.None? ==> |calls| == 6)
  {
    var r := Pipeline(event, scope, s);
    if s.clone.Ok? {
      var rest := AfterClone(event, scope, s.clone.value, s);
      assert StageCalls(r, s) == [Clone(event.cloneURL, event.branch)] + rest.trace;
    }
  }

  /**
   * The deferred cleanup runs exactly once, as the last call, whenever the
   * clone succeeded, and never when it failed.
   */
  lemma CleanupExactlyOnce(event: PullRequestEvent, scope: Option<string>, s: Stages)
    ensures var t := Pipeline(event, scope, s).trace;
      (s.clone.Ok? ==> |t| >= 2 && t[|t| - 1] == Cleanup(s.clone.value) && forall i :: 0 <= i < |t| - 1 ==> !t[i].Cleanup?)
      && (s.clone.Err? ==> forall e :: e in t ==> !e.Cleanup?)
  {
    PipelineStopsAtFirstFailure(event, scope, s);
  }

  /** A project without snippets is a user error and the embedder is never called. */
  lemma NoSnippetsNoEmbedding(event: PullRequestEvent, scope: Option<string>, s: Stages)
    requires s.clone.Ok? && s.parse == Ok([])
    ensures Pipeline(event, scope, s).err == Some(NoSnippetFound)
    ensures forall e :: e in Pipeline(event, scope, s).trace ==> !e.Embed? && !e.Review? && !e.Post?
  {
  }

  /** The comment posted is the review, on the event's pull request, in the event's repository. */
  lemma PostsTheReview(event: PullRequestEvent, scope: Option<string>, s: Stages, e: Effect)
    requires e in Pipeline(event, scope, s).trace && e.Post?
    ensures s.review.Ok? && e == Post(event.number, s.review.value, event.owner, event.repo)
  {
  }

  /** With the intended calls, indexing and retrieval both happen under the given project id. */
  lemma ScopedByProject(event: PullRequestEvent, projectId: string, s: Stages)
    ensures forall e :: e in Pipeline(event, Some(projectId), s).trace && (e.Embed? || e.Review?) ==> e.projectId == Some(projectId)
  {
  }

  /**
   * As written, the calls do not depend on the project: two events of
   * different repositories whose other stage inputs agree make the same
   * embedder and assistant calls. So snippets of one project are stored and
   * retrieved together with those of the other.
   */
  lemma AsWrittenIgnoresProject(a: PullRequestEvent, b: PullRequestEvent, s: Stages)
    requires a.diffURL == b.diffURL
    ensures forall e :: e in PipelineAsWritten(a, s).trace && (e.Embed? || e.Review?) ==> e in PipelineAsWritten(b, s).trace
    ensures forall e :: e in PipelineAsWritten(a, s).trace && (e.Embed? || e.Review?) ==> e.projectId.None?
  {
  }

  /**
   * With the intended calls and each event's own identifier, events of
   * different repositories index and retrieve under different project ids.
   */
  lemma IntendedSeparatesProjects(a: PullRequestEvent, b: PullRequestEvent)
    requires '/' !in a.owner && '/' !in a.repo && '/' !in a.branch
    requires '/' !in b.owner && '/' !in b.repo && '/' !in b.branch
    requires a.owner != b.owner || a.repo != b.repo
    ensures GetProjectIdentifier(a) != GetProjectIdentifier(b)
  {
    if GetProjectIdentifier(a) == GetProjectIdentifier(b) {
      IdentifierInjective(a, b);
    }
  }

  // ---- One message of the topic ----

  datatype Status = Success | Failure

  /** What the worker does with one message. */
  datatype Action =
    | Processed(event: PullRequestEvent, trace: seq<Effect>)
    | Commit
    | ObserveCount(status: Status)
    | ObserveLatency(status: Status, start: int)

  /**
   * The body of the worker loop for one message. `decoded` is the outcome of
   * unmarshalling the payload, `start` the time it was received. A payload
   * that does not decode is skipped. Otherwise the event is processed with
   * the project scope `scope` (`None` as written, the event's
   * `GetProjectIdentifier` as intended); the message is committed exactly when processing
   * succeeded (a commit failure is only logged); and exactly one count and
   * one latency observation are made, both labelled with the outcome.
   */
  method HandleMessage(decoded: Option<PullRequestEvent>, scope: Option<string>, start: int, s: Stages)
    returns (actions: seq<Action>)
    ensures decoded.None? ==> actions == []
    ensures decoded.Some? ==>
      var event := decoded.value;
      var r := Pipeline(event, scope, s);
      var status := if r.err.None? then Success else Failure;
      |actions| >= 3 && actions[0] == Processed(event, r.trace)
      && (Commit in actions <==> r.err.None?)
      && actions[|actions| - 2..] == [ObserveCount(status), ObserveLatency(status, start)]
      && (forall i :: 0 <= i < |actions| - 2 ==> !actions[i].ObserveCount? && !actions[i].ObserveLatency?)
  {
    if decoded.None? {
      return [];
    }
    var event := decoded.value;
    var err, trace := Process(event, scope, s);
    actions := [Processed(event, trace)];
    if err.None? {
      actions := actions + [Commit];
    }
    var status := if err.None? then Success else Failure;
    actions := actions + [ObserveCount(status), ObserveLatency(status, start)];
  }
}
