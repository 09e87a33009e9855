/**
 * Review generation in the review service
 * (services/code-reviewer/internal/assistant/assistant.go): the query text is
 * embedded, the nearest snippets of the project are retrieved and laid out
 * as a context block, a prompt template is chosen by task, and the language
 * model is called, both remote calls under a retrier.
 *
 * Collaborators and their outcomes:
 * - `embedQuery(a)`: the embedding client's answer in attempt `a`.
 * - `nearest`: the repository's answer.
 * - `format`: the prompt library's rendering of the template.
 * - `predict(a)`: the language model's answer in attempt `a`.
 * - `embedDraws`, `predictDraws`: the random source as seen by the jitter of
 *   the embedding retrier and of the model retrier; the two calls draw from
 *   one generator at different times, so each gets its own sequence.
 * The caller's context is likewise seen separately by each retried call
 * (`embedCtx`, `predictCtx`): time passes between the two, and the context
 * may be cancelled or time out in between.
 * Prompt rendering itself is not modelled.
 */
module Assistant {
  import opened Errors
  import opened Backoff
  import opened Retry
  import opened Models

  const ContextSize: int := 5
  const Language: string := "go"
  /** `openai.SmallEmbedding3`. */
  const EmbeddingModel: string := "text-embedding-3-small"

  datatype Collaborators = Collaborators(
    embedDraws: Attempt -> nat,
    embedQuery: Attempt -> Result<seq<Vector>>,
    nearest: Result<seq<Snippet>>,
    format: Result<string>,
    predictDraws: Attempt -> nat,
    predict: Attempt -> Result<string>)

  /** Everything the assistant asks of its collaborators, in order. */
  datatype Effect =
    | EmbedQuery(model: string, texts: seq<string>, attempts: seq<Step>)
    | Nearest(vector: Vector, k: int, projectId: string)
    | Format(template: string, text: string, context: string, language: string)
    | Predict(attempts: seq<Step>)

  /** Both retriers of the assistant: 5 attempts, jittered backoff from 500ms capped at 10s, every error retried. */
  function AssistantRetrier(draws: Attempt -> nat): (rt: Retrier)
    ensures rt.Valid() && rt.maxRetries == 5
    ensures forall e: Error :: rt.shouldRetry(e)
  {
    New(Options(5, Some(ExponentialJitterBackoff(500 * Millisecond, 10 * Second, draws)), None))
  }

  /**
   * The template switch of `callLLMToPerformTask`. It has no default branch,
   * so an unknown task is given the empty template rather than an error.
   */
  function TemplateFor(templates: Templates, task: Task): (t: string)
    ensures task == TaskCodeReview ==> t == templates.codeReview
    ensures task == TaskCodeCompletion ==> t == templates.codeCompletion
    ensures task == TaskCodeGeneration ==> t == templates.codeGeneration
    ensures task !in {TaskCodeReview, TaskCodeCompletion, TaskCodeGeneration} ==> t == ""
  {
    if task == TaskCodeReview then templates.codeReview
    else if task == TaskCodeCompletion then templates.codeCompletion
    else if task == TaskCodeGeneration then templates.codeGeneration
    else ""
  }

  /** The entries the context block shows for the retrieved snippets. */
  function EntriesOf(records: seq<Snippet>): (r: seq<Entry>)
    ensures |r| == |records| && forall i :: 0 <= i < |records| ==> r[i] == Entry(records[i].filename, records[i].content)
  {
    if records == [] then [] else [Entry(records[0].filename, records[0].content)] + EntriesOf(records[1..])
  }

  /** The loop over the retrieved records that writes the context into a string builder. */
  method BuildContext(records: seq<Snippet>) returns (text: string)
    ensures text == ContextText(EntriesOf(records))
  {
    ghost var entries := EntriesOf(records);
    text := "";
    var i := 0;
    while i < |records|
      invariant 0 <= i <= |records|
      invariant text == Blocks(entries[..i], 0)
    {
      var record := records[i];
      ghost var before := text;
      var header := Header(i, record.filename);
      text := text + header;
      text := text + record.content;
      text := text + "\n\n";
      assert text == before + Block(i, entries[i]);
      assert entries[..i + 1] == entries[..i] + [entries[i]];
      BlocksSnoc(entries[..i], entries[i], 0);
      i := i + 1;
    }
    assert entries[..i] == entries;
  }

  /**
   * `getContextFromChroma`: the query text alone is embedded under the
   * 5-attempt retrier; the first vector is used to ask the repository for 5
   * neighbours within the project; their context block is returned. An
   * error of either call is returned unchanged and ends the operation. The
   * code reads the first vector of the answer, so a successful embedding call
   * must return one.
   */
  method GetContextFromChroma(ctx: Context, projectId: string, queryText: string, c: Collaborators)
    returns (r: Result<string>, effects: seq<Effect>)
    requires forall a: Attempt :: c.embedQuery(a).Ok? ==> |c.embedQuery(a).value| >= 1
    ensures var o := AssistantRetrier(c.embedDraws).Spec(ctx, c.embedQuery);
      && |effects| >= 1 && effects[0] == EmbedQuery(EmbeddingModel, [queryText], o.trace)
      && (o.result.Err? ==> r == Err(o.result.error) && |effects| == 1)
      && (o.result.Ok? ==>
            |effects| == 2 && effects[1] == Nearest(o.result.value[0], ContextSize, projectId)
            && (c.nearest.Err? ==> r == Err(c.nearest.error))
            && (c.nearest.Ok? ==> r == Ok(ContextText(EntriesOf(c.nearest.value)))))
  {
    var retrier := AssistantRetrier(c.embedDraws);
    var resp, trace := retrier.Do(ctx, c.embedQuery);
    effects := [EmbedQuery(EmbeddingModel, [queryText], trace)];
    if resp.Err? {
      return Err(resp.error), effects;
    }
    RunResult(retrier, ctx, c.embedQuery, 1, []);
    assert trace != [] && trace[|trace| - 1].Call?;
    var vector := resp.value[0];
    effects := effects + [Nearest(vector, ContextSize, projectId)];
    if c.nearest.Err? {
      return Err(c.nearest.error), effects;
    }
    var text := BuildContext(c.nearest.value);
    r := Ok(text);
  }

  /**
   * `callLLMToPerformTask`: the task's template is rendered with the query,
   * the context and the language; a rendering error is returned; otherwise
   * the model is called under the 5-attempt retrier and its answer, or its
   * error, is returned unchanged.
   */
  method CallLLMToPerformTask(ctx: Context, templates: Templates, task: Task, queryText: string, contextString: string,
                              language: string, c: Collaborators)
    returns (r: Result<string>, effects: seq<Effect>)
    ensures |effects| >= 1 && effects[0] == Format(TemplateFor(templates, task), queryText, contextString, language)
    ensures c.format.Err? ==> r == Err(c.format.error) && |effects| == 1
    ensures c.format.Ok? ==>
      var o := AssistantRetrier(c.predictDraws).Spec(ctx, c.predict);
      r == o.result && effects == [effects[0], Predict(o.trace)]
  {
    var template := TemplateFor(templates, task);
    effects := [Format(template, queryText, contextString, language)];
    if c.format.Err? {
      return Err(c.format.error), effects;
    }
    var retrier := AssistantRetrier(c.predictDraws);
    var result, trace := retrier.Do(ctx, c.predict);
    effects := effects + [Predict(trace)];
    r := result;
  }

  /**
   * `Assistant.PerformTask`: the context of the project's nearest snippets,
   * then the language model with language "go". A context error is returned
   * unchanged and the model is not involved; otherwise the model's answer is
   * returned verbatim. `embedCtx` and `predictCtx` are the caller's one
   * context as seen during the embedding call and during the model call.
   */
  method PerformTask(embedCtx: Context, predictCtx: Context, templates: Templates, task: Task, queryText: string, projectId: string, c: Collaborators)
    returns (r: Result<string>, effects: seq<Effect>)
    requires forall a: Attempt :: c.embedQuery(a).Ok? ==> |c.embedQuery(a).value| >= 1
    ensures |effects| >= 1 && effects[0].EmbedQuery? && effects[0].texts == [queryText]
    ensures forall e :: e in effects && e.Nearest? ==> e.projectId == projectId && e.k == ContextSize
    ensures GetContext(embedCtx, projectId, c).Err? ==>
      r == GetContext(embedCtx, projectId, c) && forall e :: e in effects ==> !e.Format? && !e.Predict?
    ensures GetContext(embedCtx, projectId, c).Ok? ==>
      var contextString := GetContext(embedCtx, projectId, c).value;
      Format(TemplateFor(templates, task), queryText, contextString, Language) in effects
      && (c.format.Err? ==> r == Err(c.format.error))
      && (c.format.Ok? ==> r == AssistantRetrier(c.predictDraws).Spec(predictCtx, c.predict).result)
  {
    var contextString, contextEffects := GetContextFromChroma(embedCtx, projectId, queryText, c);
    if contextString.Err? {
      return Err(contextString.error), contextEffects;
    }
    var response, llmEffects := CallLLMToPerformTask(predictCtx, templates, task, queryText, contextString.value, Language, c);
    effects := contextEffects + llmEffects;
    r := response;
  }

  /** The result of `getContextFromChroma` with these collaborators: the context block or the first error. */
  function GetContext(ctx: Context, projectId: string, c: Collaborators): Result<string>
    requires forall a: Attempt :: c.embedQuery(a).Ok? ==> |c.embedQuery(a).value| >= 1
  {
    var o := AssistantRetrier(c.embedDraws).Spec(ctx, c.embedQuery);
    if o.result.Err? then Err(o.result.error)
    else if c.nearest.Err? then Err(c.nearest.error)
    else Ok(ContextText(EntriesOf(c.nearest.value)))
  }

  /** No retrieved snippet gives the empty context and no error. */
  lemma EmptyRetrievalEmptyContext(ctx: Context, projectId: string, c: Collaborators)
    requires forall a: Attempt :: c.embedQuery(a).Ok? ==> |c.embedQuery(a).value| >= 1
    requires AssistantRetrier(c.embedDraws).Spec(ctx, c.embedQuery).result.Ok? && c.nearest == Ok([])
    ensures GetContext(ctx, projectId, c) == Ok("")
  {
  }
}
