/**
 * Indexing in the review service
 * (services/code-reviewer/internal/embedder/embedder.go): the contents of the
 * snippets are embedded in one retried call, each snippet receives its
 * vector in place, and the annotated snippets are stored under the project.
 *
 * The embedding client is a collaborator: `create(a)` is what
 * `CreateEmbeddings(ctx, model, texts)` returns in attempt `a` of the
 * retrier. The store is the repository of `EmbeddingsRepo`, whose
 * collection reports `stored`.
 */
module ProjectEmbedder {
  import opened Errors
  import opened Backoff
  import opened Retry
  import opened Models
  import EmbeddingsRepo

  /** The retrier of `EmbedProject`: 3 attempts, jittered backoff from 500ms capped at 10s, every error retried. */
  function EmbedRetrier(draws: Attempt -> nat): (rt: Retrier)
    ensures rt.Valid() && rt.maxRetries == 3
    ensures forall a: Attempt :: Capped(500 * Millisecond, 10 * Second, a) / 2 <= rt.strategy(a) < Capped(500 * Millisecond, 10 * Second, a)
    ensures forall e: Error :: rt.shouldRetry(e)
  {
    New(Options(3, Some(ExponentialJitterBackoff(500 * Millisecond, 10 * Second, draws)), None))
  }

  /** The index of the last occurrence in `s` of the snippet at `j`: the assignment to it that is left standing. */
  function LastIndex(s: seq<Snippet>, j: nat): (k: nat)
    requires j < |s|
    ensures j <= k < |s| && s[k] == s[j]
    ensures forall m :: k < m < |s| ==> s[m] != s[j]
  {
    if s[|s| - 1] == s[j] then |s| - 1 else LastIndex(s[..|s| - 1], j)
  }

  /** Without repeated snippets, snippet `j` keeps the vector at `j`. */
  lemma LastIndexDistinct(s: seq<Snippet>, j: nat)
    requires j < |s|
    requires forall a, b :: 0 <= a < b < |s| ==> s[a] != s[b]
    ensures LastIndex(s, j) == j
  {
  }

  /**
   * The loop that hands each snippet the vector at its index, in place;
   * nothing but the snippets' embeddings changes.
   */
  method AttachEmbeddings(snippets: seq<Snippet>, embeddings: seq<Vector>)
    requires |embeddings| >= |snippets|
    modifies Objects(snippets)
    ensures forall j :: 0 <= j < |snippets| ==> snippets[j].embedding == embeddings[LastIndex(snippets, j)]
  {
    var i := 0;
    while i < |snippets|
      invariant 0 <= i <= |snippets|
      invariant forall j :: 0 <= j < i ==> snippets[j].embedding == embeddings[LastIndex(snippets[..i], j)]
      modifies Objects(snippets)
    {
      snippets[i].embedding := embeddings[i];
      assert snippets[..i + 1][..i] == snippets[..i];
      i := i + 1;
    }
    assert snippets[..i] == snippets;
  }

  /** The texts sent for embedding: the snippet contents, one per snippet, in order. */
  predicate ContentsOf(texts: seq<string>, snippets: seq<Snippet>) {
    |texts| == |snippets| && forall i :: 0 <= i < |snippets| ==> texts[i] == snippets[i].content
  }

  /**
   * `ProjectEmbedder.EmbedProject`. The texts are collected, the embedding
   * call runs under `EmbedRetrier`; its error is returned unchanged and
   * nothing is touched or stored. Otherwise every snippet gets the vector at
   * its position (for a snippet listed twice, the later position's), the
   * other fields stay as they were, and the snippets go to the repository
   * with the project id; its error is returned, the vectors staying attached.
   * The code indexes the response by snippet position, so a successful call
   * must return at least one vector per snippet.
   */
  method EmbedProject(ctx: Context, projectId: string, snippets: seq<Snippet>, draws: Attempt -> nat,
                      create: Attempt -> Result<seq<Vector>>, stored: Option<Error>)
    returns (err: Option<Error>, texts: seq<string>, attempts: Outcome<seq<Vector>>, added: Option<EmbeddingsRepo.AddRequest>)
    requires forall a: Attempt :: create(a).Ok? ==> |create(a).value| >= |snippets|
    modifies Objects(snippets)
    ensures ContentsOf(texts, snippets)
    ensures attempts == EmbedRetrier(draws).Spec(ctx, create)
    ensures attempts.result.Err? ==>
      err == Some(attempts.result.error) && added == None
      && forall s :: s in snippets ==> s.embedding == old(s.embedding)
    ensures attempts.result.Ok? ==>
      var embeddings := attempts.result.value;
      (forall j :: 0 <= j < |snippets| ==> snippets[j].embedding == embeddings[LastIndex(snippets, j)])
      && added.Some?
      && EmbeddingsRepo.Describes(added.value, AllFields(snippets), EmbeddingsRepo.Embeddings(snippets), projectId)
      && err == stored
  {
    texts := [];
    var k := 0;
    while k < |snippets|
      invariant 0 <= k <= |snippets|
      invariant ContentsOf(texts, snippets[..k])
    {
      texts := texts + [snippets[k].content];
      k := k + 1;
    }
    assert snippets[..k] == snippets;

    var retrier := EmbedRetrier(draws);
    var result, trace := retrier.Do(ctx, create);
    attempts := Outcome(result, trace);
    RunResult(retrier, ctx, create, 1, []);
    if result.Err? {
      return Some(result.error), texts, attempts, None;
    }
    var embeddings := result.value;
    assert trace != [] && trace[|trace| - 1].Call?;

    AttachEmbeddings(snippets, embeddings);

    var addErr, req := EmbeddingsRepo.Add(snippets, projectId, stored);
    err := addErr;
    added := Some(req);
  }

  /** The embedding client is called at most three times per `EmbedProject`. */
  lemma EmbedAtMostThreeCalls(ctx: Context, draws: Attempt -> nat, create: Attempt -> Result<seq<Vector>>)
    ensures Calls(EmbedRetrier(draws).Spec(ctx, create).trace) <= 3
  {
    var rt := EmbedRetrier(draws);
    RunBounded(rt, ctx, create, 1, []);
  }
}
