# Code-review pipeline, modelled in Dafny

This project models the core of an automated pull-request reviewer written in Go. A GitHub
webhook payload is converted into a pull-request event. The event is then processed in
stages:

1. the repository is cloned;
2. its source files are parsed into code snippets (tree-sitter node types per language);
3. the snippets are embedded and stored in a vector collection under a project identifier;
4. the diff is downloaded;
5. an assistant retrieves the nearest snippets as a context block, fills a prompt
   template and asks a language model for a review;
6. the review is posted as a comment.

Remote calls of the review service run under a generic retry executor with exponential,
optionally jittered, backoff.

Two generations of the pipeline exist side by side, and both are modelled:

- the **review service** (`services/code-reviewer/...`, `pkg/retry`). A message-driven
  event processor feeds an embedder and an assistant that scope storage and retrieval by
  project and retry their remote calls.
- the **in-process pipeline** (`internal/...`). A loop over queued webhook events feeds an
  embedder, and an assistant with no retrier and no project scope. It also holds the
  snippet parsers that both pipelines use.

One module per core source file:

| module | file |
|---|---|
| `Backoff` | `backoff.dfy` |
| `Retry` | `retry.dfy` |
| `Events` | `events.dfy` |
| `EmbeddingsRepo` | `embeddings_repo.dfy` |
| `ProjectEmbedder` (service) | `project_embedder.dfy` |
| `LegacyEmbedder` (in-process) | `legacy_embedder.dfy` |
| `Assistant` (service) | `assistant.dfy` |
| `LegacyAssistant` (in-process) | `legacy_assistant.dfy` |
| `CodeParsing` | `code_parser.dfy` |
| `ProjectParsing` | `project_parser.dfy` |
| `EventProcessor` | `event_processor.dfy` |
| `LegacyReviewer` (in-process orchestrator) | `legacy_reviewer.dfy` |

Shared modules:

- `Errors`: the error values and the `Option`/`Result` wrappers.
- `Strings`: the Go standard-library string operations the code relies on.
- `Models`: the snippet, the task names and the context block.

## How collaborators are modelled

- Each collaborator is an input. A single call becomes the value of its outcome. A call
  made under the retrier becomes a function from the attempt number to that attempt's
  outcome.
- The collaborators are:
  - git clone and diff download;
  - the embedding client;
  - the Chroma collection;
  - the language model;
  - the GitHub comment API;
  - tree-sitter;
  - the uuid generator;
  - `math/rand`;
  - the file-system walk.
- What a component asks of its collaborators, in order, is returned as a trace of effect
  values. Stage order, "stop at the first failure" and "clean up exactly once" are stated
  over these traces.
- Imperative code stays imperative:
  - the snippet is a class whose `embedding` field the embedders write in place;
  - loops are methods with invariants, proved against specification functions;
  - the in-process embedder's fixed-size buffers are arrays.
- Go's `time.Duration` arithmetic is written out on unbounded integers with explicit
  int64 wrap-around in the plain exponential strategy (`Backoff.ExponentialDelay`). The
  jittered strategy is modelled with the intended cap, computed on unbounded integers
  (`Backoff.Capped`). The cap as written (`Backoff.CappedAsWritten`) is modelled beside
  it and compared in `Backoff.CappedAsWrittenAgrees` and in Findings.

## Where the description and the code differ (the model follows the code)

- **Retry and cancellation.** The retrier checks the context before each call and during
  each wait. It never interrupts a call that is running.
- **Unknown task, review service.** `callLLMToPerformTask` has no default branch. An
  unknown task gets the empty template, not an error (`Assistant.TemplateFor`). Only the
  in-process assistant returns "unknown intent".
- **Zero completion choices.** The "no response" error exists only in the in-process
  assistant, which does not retry the model call. The service assistant retries the
  prediction and has no such check.
- **Project scope.** The embedder and assistant of the service take a project identifier.
  The event processor does not pass one (see Findings). `EventProcessor.Process` and
  `EventProcessor.HandleMessage` take the scope as a parameter: `None` is the call as
  written, the event's `GetProjectIdentifier` the intended call.
- **Unreadable files.** A file that cannot be read ends the project walk with its error
  (`internal/parser/project_parser.go:35-38`). It is not skipped.

## Model

| member | source | states |
|---|---|---|
| Errors.StatusCode | services/code-reviewer/internal/errors/errors.go:15-31 | The status is 400 exactly for the user error (no snippet found); the other HTTP errors are 500 |
| Errors.Description | services/code-reviewer/internal/errors/errors.go:15-31 | Every HTTP error carries a non-empty description |
| Strings.Split | internal/vsc/models.go:31-34 | Go's `strings.Split`: one more part than separators, no part holds the separator, joining the parts gives the input back |
| Strings.SplitJoin | services/api-gateway/api/github-webhook.go:53-56 | Splitting a join of separator-free parts gives exactly those parts back |
| Strings.DecimalRoundTrip | services/api-gateway/pkg/models/event.go:17 | The `%d` rendering of any integer parses back to that integer |
| Strings.ToLower | internal/parser/project_parser.go:33 | Lower-casing keeps the length, lowers the ASCII letters 'A' to 'Z' and keeps every other character |
| Strings.Ext | internal/parser/project_parser.go:33 | `filepath.Ext`: empty, or a suffix of the path that starts with '.' and holds no other '.' and no '/' |
| Strings.ReplaceSkipsLiteral | internal/assistant/assistant.go:104-109 | The single-pass replacer copies text that starts no pattern and continues after it |
| Strings.ReplaceSkips | internal/assistant/assistant.go:104-109 | Characters at which no pattern starts are copied through, and replacing continues after them |
| Strings.ReplaceIdentity | internal/assistant/assistant.go:104-109 | A text in which no pattern starts at any position is returned unchanged |
| Backoff.Wrap64 | pkg/retry/backoff.go:10 | Duration arithmetic wraps into int64, leaving int64 values unchanged |
| Backoff.ExponentialDelay | pkg/retry/backoff.go:8-12 | The wait for attempt a is an int64 and equals base·2^(a-1) whenever that fits in int64 |
| Backoff.ExponentialBackoff | pkg/retry/backoff.go:8-12 | The strategy gives the exponential delay for every attempt |
| Backoff.ExponentialDoubles | pkg/retry/backoff.go:10 | Without overflow each wait is twice the previous one |
| Backoff.ExponentialIncreasing | pkg/retry/backoff.go:8-12 | For a positive base and no overflow the waits are positive and strictly increasing |
| Backoff.Capped | pkg/retry/backoff.go:16-19 | The intended cap, on unbounded integers: the smaller of base·2^(a-1) and the maximum. The int64 cap as written is `Backoff.CappedAsWritten`; the two agree while the product fits in int64 (`Backoff.CappedAsWrittenAgrees`) |
| Backoff.JitterDelay | pkg/retry/backoff.go:20-21 | Half the capped wait plus a draw below that half lies in [capped/2, capped) and never exceeds the maximum |
| Backoff.JitterWait | pkg/retry/backoff.go:14-23 | With the intended cap (`Backoff.Capped`), whatever the random draw, the wait lies in [capped/2, capped) and below the maximum |
| Backoff.ExponentialJitterBackoff | pkg/retry/backoff.go:14-23 | Every wait of the jittered strategy, with the intended cap, is its jitter wait for that attempt's draw, within [capped/2, capped) |
| Backoff.CappedAsWrittenAgrees | pkg/retry/backoff.go:16-19 | The int64 computation of the cap equals the intended cap whenever base·2^(a-1) fits in int64 |
| Backoff.PipelineCapFits | services/code-reviewer/internal/embedder/embedder.go:35 | With 500ms and 10s, as used by the service, the cap is computed correctly for attempts 1 to 35 |
| Backoff.JitterOverflowAtAttempt36 | pkg/retry/backoff.go:16-20 | At attempt 36 the cap as written is negative, whereas the intended cap is 10s |
| Backoff.CappedAsWrittenBelowIntended | pkg/retry/backoff.go:16-19 | Base 5·2^60ns, maximum 2^63−1ns, attempt 3: the cap as written wraps to 2^62, positive and without a panic, whereas the intended cap is the maximum |
| Retry.New | pkg/retry/retry.go:30-41 | A non-positive retry count becomes 3, a missing strategy exponential backoff from 500ms, a missing predicate "retry every error"; given options are kept |
| Retry.Retrier.Do | pkg/retry/retry.go:43-73 | The result and the calls and waits of `Do` are those of the specification `Run` from attempt 1 |
| Retry.RunBounded | pkg/retry/retry.go:47 | A run only extends what was done, calls the function at most once per remaining attempt and only for attempts up to the retry count |
| Retry.SuccessOnFirstTry | pkg/retry/retry.go:52-55 | A first-time success is returned after exactly one call |
| Retry.EventuallySucceeds | pkg/retry/retry.go:47-69 | Retryable failures up to attempt k then success: a call and the strategy's wait per failed attempt, then the value |
| Retry.AlwaysFails | pkg/retry/retry.go:61-72 | Always-retryable failures: every attempt is called, with waits between, and the last error is returned verbatim |
| Retry.AlwaysFailsCalls | pkg/retry/retry.go:47-72 | An always-failing function is called exactly `maxRetries` times and the last error is returned |
| Retry.ShouldRetryFalse | pkg/retry/retry.go:57-59 | An error the predicate refuses is returned after a single call |
| Retry.CancelledBeforeStart | pkg/retry/retry.go:48-50 | A context already done means no call at all and the context's error |
| Retry.RunResult | pkg/retry/retry.go:43-73 | A success is the value of the last call; a failure is the context's error or the last call's error |
| Events.ConvertGitHubEvent | internal/vsc/models.go:26-46 | An event exists iff the payload, pull request, repository and owner are present and the full name holds exactly one '/'; then owner/repo rebuild the full name and the other fields come from the nil-safe getters |
| Events.ConvertRecoversOwnerAndRepo | services/api-gateway/api/github-webhook.go:48-68 | A complete payload with full name "owner/repo" converts to an event with exactly that owner and repository |
| Events.GetProjectIdentifier | services/api-gateway/pkg/models/event.go:16-18 | The identifier is owner, repository, branch and decimal number joined by '/' |
| Events.IdentifierIgnoresOtherFields | services/api-gateway/pkg/models/event.go:17 | Title, author, clone and diff URLs do not affect the identifier |
| Events.IdentifierSplits | services/api-gateway/pkg/models/event.go:16-18 | With '/'-free owner, repository and branch the identifier splits back into its four parts |
| Events.IdentifierInjective | services/api-gateway/pkg/models/event.go:16-18 | Under that condition equal identifiers mean equal owner, repository, branch and number |
| Models.Snippet.constructor | services/code-reviewer/internal/models/models.go:11-18 | A new snippet has the given id, content, file name and language and no embedding |
| Models.BlocksSnoc | services/code-reviewer/internal/assistant/assistant.go:74-79 | One more record adds its block, numbered after the others, at the end of the context |
| Models.BlocksAppend | services/code-reviewer/internal/assistant/assistant.go:74-79 | The context of two record lists is their contexts concatenated, the second renumbered |
| Models.ContextShowsEntry | services/code-reviewer/internal/assistant/assistant.go:75-79 | Record i appears in the context as block i, with its header, content and blank line |
| Models.ContextEndsWithBlankLine | services/code-reviewer/internal/assistant/assistant.go:78 | A non-empty context ends with a blank line |
| EmbeddingsRepo.MetadataOf | services/code-reviewer/internal/repositories/embeddings_repo.go:54-58 | A stored snippet's metadata gives its file name, its language and the project id |
| EmbeddingsRepo.Add | services/code-reviewer/internal/repositories/embeddings_repo.go:44-68 | Entry i of ids, documents, vectors and metadata comes from snippet i, every metadata tagged with the project; the collection's error is returned unchanged |
| EmbeddingsRepo.GetNearestRecord | services/code-reviewer/internal/repositories/embeddings_repo.go:70-102 | The query asks for n neighbours filtered by project id; its error is returned; no group gives no snippet; otherwise snippet i is document i of the first group with its metadata's file name and language, new and without embedding |
| EmbeddingsRepo.RetrievedAfterAdd | services/code-reviewer/internal/repositories/embeddings_repo.go:44-102 | Documents answered from what `Add` stored map back to the content, file name and language of the snippets that were added |
| ProjectEmbedder.EmbedRetrier | services/code-reviewer/internal/embedder/embedder.go:33-36 | 3 attempts, every error retried, each wait in [capped/2, capped) of the 500ms/10s jittered backoff |
| ProjectEmbedder.LastIndex | services/code-reviewer/internal/embedder/embedder.go:45-47 | The last position holding the same snippet, whose assignment is left standing |
| ProjectEmbedder.LastIndexDistinct | services/code-reviewer/internal/embedder/embedder.go:45-47 | Without repeated snippets each snippet keeps the vector at its own index |
| ProjectEmbedder.AttachEmbeddings | services/code-reviewer/internal/embedder/embedder.go:45-47 | Every snippet ends with the vector at its (last) index, in place |
| ProjectEmbedder.EmbedProject | services/code-reviewer/internal/embedder/embedder.go:26-56 | Texts are the contents in order; the embedding call runs under the retrier; its error is returned with nothing changed or stored; otherwise vectors are attached and stored with the project id, the store's error returned |
| ProjectEmbedder.EmbedAtMostThreeCalls | services/code-reviewer/internal/embedder/embedder.go:33-39 | The embedding client is called at most three times |
| Assistant.AssistantRetrier | services/code-reviewer/internal/assistant/assistant.go:56-59 | 5 attempts, every error retried, for the given random source |
| Assistant.TemplateFor | services/code-reviewer/internal/assistant/assistant.go:91-99 | Each known task gets its zero-shot template; any other task gets the empty template |
| Assistant.BuildContext | services/code-reviewer/internal/assistant/assistant.go:74-81 | The string builder loop produces the numbered context block of the records |
| Assistant.GetContextFromChroma | services/code-reviewer/internal/assistant/assistant.go:54-82 | The query text alone is embedded under the retrier, with the embedding call's own random draws and view of the context; its first vector asks for 5 neighbours within the project; either error is returned unchanged; otherwise the context block |
| Assistant.CallLLMToPerformTask | services/code-reviewer/internal/assistant/assistant.go:84-132 | The task's template is formatted with text, context and language; a format error is returned; otherwise the model answer or error, retried with the model call's own random draws and view of the context, is returned |
| Assistant.PerformTask | services/code-reviewer/internal/assistant/assistant.go:37-52 | A context error ends the task before the model is involved; otherwise the prompt uses that context and language "go" and the model's result is returned; the caller's context and random source are seen separately by the two retried calls |
| Assistant.EmptyRetrievalEmptyContext | services/code-reviewer/internal/assistant/assistant.go:74-81 | No retrieved record gives the empty context and no error |
| LegacyAssistant.SelectTemplate | internal/assistant/assistant.go:92-102 | A template exactly for the three known tasks |
| LegacyAssistant.Placeholders | internal/assistant/assistant.go:104-108 | The replacer's three placeholders, each starting with '{' |
| LegacyAssistant.BuildPrompt | internal/assistant/assistant.go:91-112 | An error iff the task is unknown, and then "unknown intent" |
| LegacyAssistant.TemplateChoiceAgrees | internal/assistant/assistant.go:92-99 | For known tasks both assistants choose the same template |
| LegacyAssistant.MatchIffPlaceholder | internal/assistant/assistant.go:104-108 | The replacer finds a pattern exactly where `{text}`, `{context}` or `{language}` starts |
| LegacyAssistant.EveryTemplateReads | internal/assistant/assistant.go:104-109 | Every template is spelled by its reading into literals and placeholders, and no placeholder starts inside a literal of that reading |
| LegacyAssistant.ReplaceAtSlot | internal/assistant/assistant.go:104-109 | At a placeholder the replacer emits its value and continues after it |
| LegacyAssistant.ReplaceFills | internal/assistant/assistant.go:104-109 | For any reading in which no placeholder starts inside a literal (braces allowed), replacing the spelled-out template gives the template with every placeholder filled once |
| LegacyAssistant.BuildPromptFills | internal/assistant/assistant.go:91-112 | The prompt keeps every literal and fills each placeholder with its value; placeholders inside values are not replaced again; with `EveryTemplateReads` this holds for every template |
| LegacyAssistant.BuildPromptKeepsPlainTemplate | internal/assistant/assistant.go:104-111 | A template in which no placeholder starts is used unchanged, whatever braces it holds |
| LegacyAssistant.StrayBraceKept | internal/assistant/assistant.go:104-109 | A brace that opens no placeholder, as in `{x}`, is kept |
| LegacyAssistant.QueryLLM | internal/assistant/assistant.go:114-137 | The completion error is returned; zero choices is "no response choices"; otherwise the first choice |
| LegacyAssistant.GroupEntries | internal/assistant/assistant.go:78-86 | Entry i shows document i with its metadata's file name |
| LegacyAssistant.GetContextFromChroma | internal/assistant/assistant.go:56-89 | The query text alone is embedded; the first vector asks for 5 neighbours with no project filter; either error is returned; otherwise the context block of the first group |
| LegacyAssistant.BuildContext | internal/assistant/assistant.go:80-88 | The string builder loop produces the numbered context block of the first group |
| LegacyAssistant.PerformTask | internal/assistant/assistant.go:32-54 | Context, prompt with language "Go", model: the first error is returned; the model is asked only with the built prompt |
| CodeParsing.NewCodeParser | internal/parser/code_parser.go:20-36 | A parser exactly for Python and Go, carrying that language |
| CodeParsing.PythonTargets | internal/parser/code_parser.go:22-27 | The Python parser keeps class and function definitions only |
| CodeParsing.GoTargets | internal/parser/code_parser.go:28-33 | The Go parser keeps type, function and method declarations only |
| CodeParsing.IsTargetType | internal/parser/code_parser.go:38-45 | True iff the node type is one of the parser's |
| CodeParsing.TargetChildren | internal/parser/code_parser.go:64-74 | At most as many nodes as children are kept |
| CodeParsing.TargetChildrenSound | internal/parser/code_parser.go:64-74 | Every kept node is a child of a target type |
| CodeParsing.TargetChildrenComplete | internal/parser/code_parser.go:64-74 | Every child of a target type is kept |
| CodeParsing.TargetsExactly | internal/parser/code_parser.go:58-74 | A node is kept iff it is the root or a direct child and has a target type |
| CodeParsing.NodeFields | internal/parser/code_parser.go:60-68 | Snippet i has the i-th fresh identifier, the node's text, the file name and the parser's language |
| CodeParsing.FileFields | internal/parser/code_parser.go:52-56 | A parse error gives no snippet; otherwise one per kept node |
| CodeParsing.ParseFile | internal/parser/code_parser.go:47-77 | The snippets made are new, without embedding, one per kept node in order with the fields above |
| CodeParsing.ParseChildren | internal/parser/code_parser.go:64-74 | The sibling loop makes one new snippet per child of a target type, in order |
| ProjectParsing.DefaultParsers | services/code-reviewer/internal/service.go:63-66 | The configured parser table the project parser is given: ".py" (Python) and ".go" (Go) only |
| ProjectParsing.Visit | internal/parser/project_parser.go:25-43 | An entry fails iff the walk reports an error or a supported file cannot be read, with that error; snippets come only from supported files |
| ProjectParsing.VisitEntry | internal/parser/project_parser.go:25-43 | The callback returns the walk or read error, nothing for directories and unsupported files, or the file's parsed snippets |
| ProjectParsing.ParseProject | internal/parser/project_parser.go:22-50 | The first failing entry's error and no snippet; otherwise all snippets of supported files in walk order, new and without embedding |
| ProjectParsing.WalkFailsAtFirstFailure | internal/parser/project_parser.go:25-47 | The walk fails iff some entry fails, and with the error of the first failing entry |
| ProjectParsing.WalkNumbersSnippets | internal/parser/project_parser.go:39-40 | Snippet k of a project carries the k-th identifier handed out |
| ProjectParsing.DistinctIdentifiers | internal/parser/project_parser.go:39-40 | With a non-repeating generator all snippet identifiers of a project differ |
| ProjectParsing.WalkSnippetOrigins | internal/parser/project_parser.go:33-40 | Every snippet names a supported file of the walk and carries that parser's language |
| ProjectParsing.KeyIgnoresCase | internal/parser/project_parser.go:33 | The case of ASCII letters in the extension does not matter when choosing the parser |
| LegacyEmbedder.LegacyMetadataOf | internal/embedder/embedder.go:87-90 | Metadata with file name and language only, no project id |
| LegacyEmbedder.PersistEmbeddings | internal/embedder/embedder.go:75-105 | Four arrays filled index by index from the snippets, one store call whose error is returned |
| LegacyEmbedder.CollectTexts | internal/embedder/embedder.go:52-55 | The texts are the snippet contents in order |
| LegacyEmbedder.EmbedProject | internal/embedder/embedder.go:49-73 | An embedding error is returned wrapped, nothing changed or stored; otherwise vectors are attached in place and stored, the store's error returned |
| LegacyEmbedder.EmbedErrorKeepsCause | internal/embedder/embedder.go:64 | The wrapped error keeps the client's error as its cause |
| LegacyEmbedder.LegacyStoreDropsProject | internal/embedder/embedder.go:83-91 | The in-process store writes what the service writes minus the project tag |
| EventProcessor.RunStages | services/code-reviewer/internal/event-processor/event-processor.go:88-123 | Parse, empty check, embed, download, review, post, each error returned as it is |
| EventProcessor.Process | services/code-reviewer/internal/event-processor/event-processor.go:74-124 | Clone, then the stages, then the deferred cleanup, with the given project scope (none as written) |
| EventProcessor.PipelineStopsAtFirstFailure | services/code-reviewer/internal/event-processor/event-processor.go:81-123 | Stages run in order, each at most once, and stop at the first failure, whose error is returned; success means all six ran |
| EventProcessor.CleanupExactlyOnce | services/code-reviewer/internal/event-processor/event-processor.go:81-86 | After a successful clone, cleanup runs exactly once and last; after a failed clone, never |
| EventProcessor.NoSnippetsNoEmbedding | services/code-reviewer/internal/event-processor/event-processor.go:94-97 | A project without snippets fails with "no snippet found" and nothing is embedded, reviewed or posted |
| EventProcessor.PostsTheReview | services/code-reviewer/internal/event-processor/event-processor.go:117 | The comment is the review, on the event's number, owner and repository |
| EventProcessor.ScopedByProject | services/code-reviewer/internal/event-processor/event-processor.go:99-115 | With the intended calls, embedding and review happen under the given project id |
| EventProcessor.AsWrittenIgnoresProject | services/code-reviewer/internal/event-processor/event-processor.go:99-111 | As written the embedder and assistant calls carry no project id and are the same for events of different repositories |
| EventProcessor.IntendedSeparatesProjects | services/api-gateway/pkg/models/event.go:16-18 | Events of different repositories get different project identifiers |
| EventProcessor.HandleMessage | services/code-reviewer/internal/event-processor/event-processor.go:43-68 | An undecodable message is skipped; otherwise it is processed with the given project scope (none as written), committed iff successful, and observed once in count and latency with the outcome |
| LegacyReviewer.ReviewCode | internal/code_reviewer/code_reviewer.go:60-98 | Clone, parse, empty check, embed, download, review, each error returned |
| LegacyReviewer.ReviewStopsAtFirstFailure | internal/code_reviewer/code_reviewer.go:60-98 | Stages in order up to the first failure, whose error is the result; no cleanup, no project id |
| LegacyReviewer.HandleEvent | internal/code_reviewer/code_reviewer.go:38-55 | Review, split the full name into owner and repository, post; any failure stops |
| LegacyReviewer.Start | internal/code_reviewer/code_reviewer.go:32-58 | Events are handled in order until the first failing one, which ends the loop |
| LegacyReviewer.PostsToFullName | internal/code_reviewer/code_reviewer.go:45-55 | The comment is the review, on the payload's number, to the owner and repository its full name splits into |

## Left out

- Concurrency:
  - the worker goroutines of the event processor;
  - the goroutine that emits the metrics;
  - the queue channel.

  One message, or one queued event, is handled at a time.
- Kafka, the metrics registry, the HTTP/gin handlers, configuration, logging and the
  dependency wiring. These are I/O and set-up.
- The parser table is taken as configured (`ProjectParsing.DefaultParsers`, the table
  `services/code-reviewer/internal/service.go:63-66` builds). The rest of the wiring, and
  `internal/modules/core.go`, is not part of this model.
- The internals of git clone, diff download and comment posting, which are network calls.
  Their outcomes are inputs.
- The embedding-client wrappers. Their responses are inputs, and the optional retrier
  inside them is not modelled.
- The similarity search of the vector collection. Its answer is an input.
- The prompt library's template rendering and prediction in the service assistant. Their
  outcomes are inputs.
- Tree-sitter parsing. The tree is an input.
- The uuid generator. It is a function of the number of identifiers already handed out.
- `math/rand`. The draws are an input and are reduced into the range `rand.Int63n` returns.
- Wall-clock time: sleeping, the 3-minute processing timeout, and the start time of the
  latency metric, which is an input.
- Floating-point vectors. A vector is a sequence of bit patterns that is never inspected.
- The JSON decoding of a message. The decoded event, or its absence, is an input.
- `EventProcessor.HandleMessage`: a failed commit is only logged, so it is not modelled.
- `Strings.ToLower`: folds the ASCII letters 'A' to 'Z' only, whereas Go's `strings.ToLower`
  folds every Unicode upper-case letter. The configured keys ".go" and ".py" are unaffected,
  because no rune other than the ASCII ones lowers to '.', 'g', 'o', 'p' or 'y'. So
  `ProjectParsing.KeyIgnoresCase` is stated for ASCII case only.
- `Backoff.JitterWait` and `Backoff.ExponentialJitterBackoff`: model the intended cap on
  unbounded integers, not the int64 product of `pkg/retry/backoff.go:16-19`. The two agree
  while base·2^(a-1) fits in int64 (`Backoff.CappedAsWrittenAgrees`, and for the service's
  500ms/10s retriers up to attempt 35, `Backoff.PipelineCapFits`). Beyond that the code either
  panics (Findings) or waits differently without a panic
  (`Backoff.CappedAsWrittenBelowIntended`).
- `Assistant.PerformTask`: the caller's context and `math/rand` are one object each, seen
  by both retried calls at different times. The model gives each call its own view of
  them. How the two views are related through elapsed time is not modelled.
- `LegacyReviewer.Start`: models the loop over the finite prefix of events queued so far.
  The source loop then keeps waiting for more.
- The snippet model `internal/models/models.go` is not part of this model. The snippet
  follows the identical `services/code-reviewer/internal/models/models.go`.
- Nil entries in the parser map are not modelled (only non-nil parsers are configured).
- The Go `int` width of the pull-request number is not modelled. The number is an
  unbounded integer.
- `ProjectEmbedder.EmbedProject` and `LegacyEmbedder.EmbedProject` require at least one
  vector per snippet in a successful embedding answer. The code indexes the answer by
  snippet position, and a shorter answer panics.
- `Assistant.GetContextFromChroma` and `LegacyAssistant.GetContextFromChroma` require a
  successful embedding answer to hold a vector. `LegacyAssistant.GetContextFromChroma`
  also requires the query answer to hold a first group, with metadata for every document,
  as the code indexes both (otherwise Go panics). `EmbeddingsRepo.GetNearestRecord` makes
  the same demand when the answer has documents.

## Findings

| source | as written | input that shows it | evidently intended | confidence | as-written member | corrected member |
|---|---|---|---|---|---|---|
| pkg/retry/backoff.go:16-20 | `base * (1 << (attempt - 1))` is computed in int64 before the cap is applied, so it overflows for large attempts; a wrapped negative value is not above `max`, stays uncapped, and `rand.Int63n` receives a non-positive bound and panics | the strategy `ExponentialJitterBackoff(500ms, 10s)` asked for attempt 36 (a retrier with `MaxRetries` of 37 or more; the service's own retriers stop at 5): 500ms·2^35 wraps to a negative duration | the wait is capped at `max` for every attempt, and stays within [max/2, max) | not executed | Backoff.JitterOverflowAtAttempt36 | Backoff.JitterWait |
| services/code-reviewer/internal/event-processor/event-processor.go:99-111 | `EmbedProject(ctx, snippets)` and `PerformTask(ctx, TaskCodeReview, diff)` are called without the project id that the service embedder (`embedder.go:26`) and assistant (`assistant.go:37`) take | two events of different repositories with the same diff: the embedder and assistant calls are identical, so snippets of both projects share one scope | each event's snippets are stored and retrieved under its own `GetProjectIdentifier(event)` | not executed | EventProcessor.AsWrittenIgnoresProject | EventProcessor.ScopedByProject |
