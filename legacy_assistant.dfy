/**
 * Review generation in the in-process pipeline
 * (internal/assistant/assistant.go). Compared with the service it embeds the
 * query and calls the model without a retrier. It queries the vector store
 * without a project filter. It rejects an unknown task, and it fills the
 * prompt template itself with a single-pass `strings.Replacer`.
 *
 * Collaborators are given by the outcomes of their single calls: the
 * embedding client's answer, the collection's answer to the query, and the
 * chat completion's choices.
 */
module LegacyAssistant {
  import opened Errors
  import opened Strings
  import opened Models
  import opened EmbeddingsRepo
  import Assistant

  const ContextSize: int := 5
  const Language: string := "Go"

  /** The task switch of `buildPrompt`: the known tasks' templates, nothing for any other task. */
  function SelectTemplate(templates: Templates, task: Task): (t: Option<string>)
    ensures t.Some? <==> task in {TaskCodeReview, TaskCodeCompletion, TaskCodeGeneration}
  {
    if task == TaskCodeReview then Some(templates.codeReview)
    else if task == TaskCodeCompletion then Some(templates.codeCompletion)
    else if task == TaskCodeGeneration then Some(templates.codeGeneration)
    else None
  }

  /** The placeholders of the prompt, in the order the replacer is given them. */
  function Placeholders(queryText: string, contextString: string, language: string): (pairs: seq<Pair>)
    ensures forall j :: 0 <= j < |pairs| ==> pairs[j].pattern != [] && pairs[j].pattern[0] == '{'
  {
    [Pair("{text}", queryText), Pair("{context}", contextString), Pair("{language}", language)]
  }

  /**
   * `buildPrompt`: an unknown task is `ErrUnknownIntent`; otherwise the
   * task's template with `{text}`, `{context}` and `{language}` replaced in
   * one left-to-right pass.
   */
  function BuildPrompt(templates: Templates, task: Task, queryText: string, contextString: string, language: string): (r: Result<string>)
    ensures r.Err? <==> SelectTemplate(templates, task).None?
    ensures r.Err? ==> r.error == UnknownIntent
  {
    match SelectTemplate(templates, task)
    case None => Err(UnknownIntent)
    case Some(template) => Ok(Replace(template, Placeholders(queryText, contextString, language)))
  }

  /** For the three known tasks both assistants choose the same template. */
  lemma TemplateChoiceAgrees(templates: Templates, task: Task)
    requires task in {TaskCodeReview, TaskCodeCompletion, TaskCodeGeneration}
    ensures SelectTemplate(templates, task) == Some(Assistant.TemplateFor(templates, task))
  {
  }

  // ---- A reference reading of a template: literal text and placeholders ----

  /** One of the three placeholders starts `s`. */
  predicate StartsPlaceholder(s: string) {
    "{text}" <= s || "{context}" <= s || "{language}" <= s
  }

  /** Whatever the values, the replacer finds a pattern exactly where a placeholder starts. */
  lemma MatchIffPlaceholder(s: string, queryText: string, contextString: string, language: string)
    ensures FirstMatch(Placeholders(queryText, contextString, language), s) >= 0 <==> StartsPlaceholder(s)
  {
    var pairs := Placeholders(queryText, contextString, language);
    assert pairs[0].pattern == "{text}" && pairs[1].pattern == "{context}" && pairs[2].pattern == "{language}";
  }

  /** A piece of a prompt template: literal text, or one of the three placeholders. */
  datatype Piece = Literal(text: string) | TextSlot | ContextSlot | LanguageSlot

  /**
   * No placeholder starts at any literal position of the template the pieces
   * spell (a literal may hold braces, even a placeholder's beginning, as long
   * as no whole placeholder starts inside it).
   */
  predicate WellFormedPieces(pieces: seq<Piece>) {
    pieces == [] ||
    ((pieces[0].Literal? ==>
        var s := pieces[0].text + Spell(pieces[1..]);
        forall i :: 0 <= i < |pieces[0].text| ==> !StartsPlaceholder(s[i..]))
     && WellFormedPieces(pieces[1..]))
  }

  /** The template a sequence of pieces spells. */
  function Spell(pieces: seq<Piece>): string {
    if pieces == [] then ""
    else
      var head := match pieces[0]
        case Literal(t) => t
        case TextSlot => "{text}"
        case ContextSlot => "{context}"
        case LanguageSlot => "{language}";
      head + Spell(pieces[1..])
  }

  /** The prompt a sequence of pieces stands for: literals kept, each placeholder filled with its value. */
  function Fill(pieces: seq<Piece>, queryText: string, contextString: string, language: string): string {
    if pieces == [] then ""
    else
      var head := match pieces[0]
        case Literal(t) => t
        case TextSlot => queryText
        case ContextSlot => contextString
        case LanguageSlot => language;
      head + Fill(pieces[1..], queryText, contextString, language)
  }

  /** The reading of any template: a placeholder wherever one starts, one-character literals elsewhere. */
  function Pieces(s: string): seq<Piece>
    decreases |s|
  {
    if s == [] then []
    else if "{text}" <= s then [TextSlot] + Pieces(s[|"{text}"|..])
    else if "{context}" <= s then [ContextSlot] + Pieces(s[|"{context}"|..])
    else if "{language}" <= s then [LanguageSlot] + Pieces(s[|"{language}"|..])
    else [Literal([s[0]])] + Pieces(s[1..])
  }

  /** Every template is spelled by its reading, and the reading is well formed. */
  lemma {:induction false} EveryTemplateReads(s: string)
    ensures Spell(Pieces(s)) == s
    ensures WellFormedPieces(Pieces(s))
    decreases |s|
  {
    if s != [] {
      if "{text}" <= s {
        EveryTemplateReads(s[|"{text}"|..]);
        assert s == "{text}" + s[|"{text}"|..];
      } else if "{context}" <= s {
        EveryTemplateReads(s[|"{context}"|..]);
        assert s == "{context}" + s[|"{context}"|..];
      } else if "{language}" <= s {
        EveryTemplateReads(s[|"{language}"|..]);
        assert s == "{language}" + s[|"{language}"|..];
      } else {
        EveryTemplateReads(s[1..]);
        var pieces := Pieces(s);
        assert pieces[1..] == Pieces(s[1..]);
        assert s == [s[0]] + s[1..];
        assert Spell(pieces) == s;
        assert (pieces[0].text + Spell(pieces[1..]))[0..] == s;
      }
    }
  }

  /** At a placeholder the replacer emits its value and continues after it. */
  lemma ReplaceAtSlot(k: nat, rest: string, queryText: string, contextString: string, language: string)
    requires k < 3
    ensures var pairs := Placeholders(queryText, contextString, language);
      Replace(pairs[k].pattern + rest, pairs) == pairs[k].replacement + Replace(rest, pairs)
  {
    var pairs := Placeholders(queryText, contextString, language);
    var s := pairs[k].pattern + rest;
    assert s[..|pairs[k].pattern|] == pairs[k].pattern;
    assert FirstMatch(pairs, s) == k by {
      assert pairs[k].pattern <= s;
      assert forall j :: 0 <= j < k ==> !(pairs[j].pattern <= s) by {
        assert "{text}"[1] == 't' && "{context}"[1] == 'c' && "{language}"[1] == 'l';
      }
    }
    assert s[|pairs[k].pattern|..] == rest;
  }

  /**
   * The replacer fills the template exactly as the piece reading says: every
   * placeholder is replaced by its value, all other text is kept, and text
   * that a value brings in (a query containing "{context}", say) is never
   * replaced again. With `EveryTemplateReads` this covers every template.
   */
  lemma {:induction false} BuildPromptFills(templates: Templates, task: Task, pieces: seq<Piece>,
                                            queryText: string, contextString: string, language: string)
    requires SelectTemplate(templates, task) == Some(Spell(pieces))
    requires WellFormedPieces(pieces)
    ensures BuildPrompt(templates, task, queryText, contextString, language) == Ok(Fill(pieces, queryText, contextString, language))
  {
    ReplaceFills(pieces, queryText, contextString, language);
  }

  lemma {:induction false} ReplaceFills(pieces: seq<Piece>, queryText: string, contextString: string, language: string)
    requires WellFormedPieces(pieces)
    ensures Replace(Spell(pieces), Placeholders(queryText, contextString, language)) == Fill(pieces, queryText, contextString, language)
  {
    var pairs := Placeholders(queryText, contextString, language);
    if pieces != [] {
      var rest := Spell(pieces[1..]);
      ReplaceFills(pieces[1..], queryText, contextString, language);
      match pieces[0]
      case Literal(t) =>
        var s := t + rest;
        assert NoMatchBefore(s, |t|, pairs) by {
          forall i | 0 <= i < |t| ensures FirstMatch(pairs, s[i..]) < 0 {
            MatchIffPlaceholder(s[i..], queryText, contextString, language);
          }
        }
        ReplaceSkips(s, |t|, pairs);
        assert s[..|t|] == t && s[|t|..] == rest;
      case TextSlot =>
        ReplaceAtSlot(0, rest, queryText, contextString, language);
      case ContextSlot =>
        ReplaceAtSlot(1, rest, queryText, contextString, language);
      case LanguageSlot =>
        ReplaceAtSlot(2, rest, queryText, contextString, language);
    }
  }

  /** A template in which no placeholder starts anywhere is used unchanged, whatever braces it holds. */
  lemma BuildPromptKeepsPlainTemplate(templates: Templates, task: Task, queryText: string, contextString: string, language: string)
    requires SelectTemplate(templates, task).Some?
    requires var t := SelectTemplate(templates, task).value; forall i :: 0 <= i < |t| ==> !StartsPlaceholder(t[i..])
    ensures BuildPrompt(templates, task, queryText, contextString, language) == Ok(SelectTemplate(templates, task).value)
  {
    var t := SelectTemplate(templates, task).value;
    var pairs := Placeholders(queryText, contextString, language);
    forall i | 0 <= i < |t| ensures FirstMatch(pairs, t[i..]) < 0 {
      MatchIffPlaceholder(t[i..], queryText, contextString, language);
    }
    ReplaceIdentity(t, pairs);
  }

  /** A brace that opens no placeholder is kept: `{x}` stays `{x}`. */
  lemma StrayBraceKept(queryText: string, contextString: string, language: string)
    ensures Replace("{x}", Placeholders(queryText, contextString, language)) == "{x}"
  {
    var t := "{x}";
    var pairs := Placeholders(queryText, contextString, language);
    forall i | 0 <= i < |t| ensures FirstMatch(pairs, t[i..]) < 0 {
      MatchIffPlaceholder(t[i..], queryText, contextString, language);
      assert t[i..] == [t[i]] + t[i + 1..];
    }
    ReplaceIdentity(t, pairs);
  }

  // ---- Calls to the collaborators ----

  /**
   * `queryLLM`: the completion call's error is returned unchanged; an answer
   * with no choice is `ErrNoResponseChoice`; otherwise the first choice's
   * content.
   */
  function QueryLLM(completion: Result<seq<string>>): (r: Result<string>)
    ensures completion.Err? ==> r == Err(completion.error)
    ensures completion.Ok? && completion.value == [] ==> r == Err(NoResponseChoice)
    ensures completion.Ok? && completion.value != [] ==> r == Ok(completion.value[0])
  {
    if completion.Err? then Err(completion.error)
    else if |completion.value| == 0 then Err(NoResponseChoice)
    else Ok(completion.value[0])
  }

  /** What the legacy assistant asks of its collaborators, in order. */
  datatype Effect =
    | EmbedQuery(model: string, texts: seq<string>)
    | QueryCollection(vector: Vector, nResults: int)
    | Complete(prompt: string)

  /** The entries the context block shows for the first group of a query answer. */
  function GroupEntries(documents: seq<string>, metadatas: seq<Metadata>): (r: seq<Entry>)
    requires |metadatas| >= |documents|
    ensures |r| == |documents|
    ensures forall i :: 0 <= i < |documents| ==> r[i] == Entry(Attribute(metadatas[i], "filename"), documents[i])
  {
    if documents == [] then []
    else [Entry(Attribute(metadatas[0], "filename"), documents[0])] + GroupEntries(documents[1..], metadatas[1..])
  }

  /** The first group of the answer is always indexed, so the answer has one, with a metadata for every document. */
  predicate HasFirstGroup(r: QueryResult) {
    |r.documents| >= 1 && |r.metadatas| >= 1 && |r.metadatas[0]| >= |r.documents[0]|
  }

  /**
   * `getContextFromChroma`: the query text alone is embedded; the first
   * vector is used to ask the collection for 5 neighbours, with no filter;
   * the first group of the answer becomes the context block. An error of
   * either call is returned unchanged.
   */
  method GetContextFromChroma(queryText: string, embedding: Result<seq<Vector>>, answer: Result<QueryResult>)
    returns (r: Result<string>, effects: seq<Effect>)
    requires embedding.Ok? ==> |embedding.value| >= 1
    requires answer.Ok? ==> HasFirstGroup(answer.value)
    ensures |effects| >= 1 && effects[0] == EmbedQuery(Assistant.EmbeddingModel, [queryText])
    ensures embedding.Err? ==> r == Err(embedding.error) && |effects| == 1
    ensures embedding.Ok? ==> effects == [effects[0], QueryCollection(embedding.value[0], ContextSize)]
    ensures embedding.Ok? && answer.Err? ==> r == Err(answer.error)
    ensures embedding.Ok? && answer.Ok? ==>
      r == Ok(ContextText(GroupEntries(answer.value.documents[0], answer.value.metadatas[0])))
  {
    effects := [EmbedQuery(Assistant.EmbeddingModel, [queryText])];
    if embedding.Err? {
      return Err(embedding.error), effects;
    }
    var queryEmbedding := embedding.value[0];
    effects := effects + [QueryCollection(queryEmbedding, ContextSize)];
    if answer.Err? {
      return Err(answer.error), effects;
    }
    var text := BuildContext(answer.value.documents[0], answer.value.metadatas[0]);
    r := Ok(text);
  }

  /** The loop over the first group of the answer that writes the context into a string builder. */
  method BuildContext(documents: seq<string>, metadata: seq<Metadata>) returns (text: string)
    requires |metadata| >= |documents|
    ensures text == ContextText(GroupEntries(documents, metadata))
  {
    ghost var entries := GroupEntries(documents, metadata);
    text := "";
    var i := 0;
    while i < |documents|
      invariant 0 <= i <= |documents|
      invariant text == Blocks(entries[..i], 0)
    {
      var filename := Attribute(metadata[i], "filename");
      ghost var before := text;
      text := text + Header(i, filename);
      text := text + documents[i];
      text := text + "\n\n";
      assert text == before + Block(i, entries[i]);
      assert entries[..i + 1] == entries[..i] + [entries[i]];
      BlocksSnoc(entries[..i], entries[i], 0);
      i := i + 1;
    }
    assert entries[..i] == entries;
  }

  /**
   * `Assistant.PerformTask`: context, then prompt with language "Go", then
   * the model; the first error is returned unchanged and ends the task.
   */
  method PerformTask(templates: Templates, task: Task, queryText: string,
                     embedding: Result<seq<Vector>>, answer: Result<QueryResult>, completion: Result<seq<string>>)
    returns (r: Result<string>, effects: seq<Effect>)
    requires embedding.Ok? ==> |embedding.value| >= 1
    requires answer.Ok? ==> HasFirstGroup(answer.value)
    ensures var contextString := Context(embedding, answer);
      (contextString.Err? ==> r == contextString && forall e :: e in effects ==> !e.Complete?)
      && (contextString.Ok? ==>
            var prompt := BuildPrompt(templates, task, queryText, contextString.value, Language);
            (prompt.Err? ==> r == prompt && forall e :: e in effects ==> !e.Complete?)
            && (prompt.Ok? ==> r == QueryLLM(completion) && |effects| >= 1 && effects[|effects| - 1] == Complete(prompt.value)))
  {
    var contextString, contextEffects := GetContextFromChroma(queryText, embedding, answer);
    effects := contextEffects;
    if contextString.Err? {
      return contextString, effects;
    }
    var prompt := BuildPrompt(templates, task, queryText, contextString.value, Language);
    if prompt.Err? {
      return Err(prompt.error), effects;
    }
    effects := effects + [Complete(prompt.value)];
    r := QueryLLM(completion);
  }

  /** The result of the legacy `getContextFromChroma` for these collaborator answers. */
  function Context(embedding: Result<seq<Vector>>, answer: Result<QueryResult>): Result<string>
    requires answer.Ok? ==> HasFirstGroup(answer.value)
  {
    if embedding.Err? then Err(embedding.error)
    else if answer.Err? then Err(answer.error)
    else Ok(ContextText(GroupEntries(answer.value.documents[0], answer.value.metadatas[0])))
  }
}
