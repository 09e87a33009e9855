/**
 * Indexing in the in-process pipeline (internal/embedder/embedder.go): the
 * snippet contents are embedded in one call, without retrier, each snippet
 * receives its vector in place, and the snippets are stored with their file
 * name and language only (no project tag). The fixed-size slices the code
 * allocates with `make` are arrays here.
 *
 * The embedding client's answer (`create`) and the collection's answer to
 * the store request (`stored`) are inputs.
 */
module LegacyEmbedder {
  import opened Errors
  import opened Models
  import opened EmbeddingsRepo
  import opened ProjectEmbedder

  /** The message `EmbedProject` wraps an embedding error with. */
  const CreateFailure: string := "failed to create embeddings"

  /** The metadata the in-process pipeline attaches to a snippet: file name and language, nothing else. */
  function LegacyMetadataOf(f: Fields): (m: Metadata)
    ensures Attribute(m, "filename") == f.filename && Attribute(m, "language") == f.language
    ensures m.Keys == {"filename", "language"}
    ensures ProjectIdKey !in m
  {
    map["filename" := f.filename, "language" := f.language]
  }

  /** Entry `i` of each of the four lists is taken from snippet `i`. */
  predicate DescribesLegacy(req: AddRequest, fields: seq<Fields>, embeddings: seq<Vector>)
    requires |fields| == |embeddings|
  {
    |req.ids| == |fields| && |req.documents| == |fields| && |req.embeddings| == |fields| && |req.metadatas| == |fields|
    && forall i :: 0 <= i < |fields| ==>
         req.ids[i] == fields[i].id && req.documents[i] == fields[i].content
         && req.embeddings[i] == embeddings[i] && req.metadatas[i] == LegacyMetadataOf(fields[i])
  }

  /**
   * `persistEmbeddings`: four arrays of the snippets' length filled index by
   * index, then one call to the collection, whose error is returned.
   */
  method PersistEmbeddings(snippets: seq<Snippet>, stored: Option<Error>) returns (err: Option<Error>, req: AddRequest)
    ensures DescribesLegacy(req, AllFields(snippets), Embeddings(snippets))
    ensures err == stored
  {
    var n := |snippets|;
    var ids := new string[n];
    var documents := new string[n];
    var vectors := new Vector[n];
    var metadatas := new Metadata[n];
    for i := 0 to n
      invariant forall j :: 0 <= j < i ==>
        ids[j] == snippets[j].id && documents[j] == snippets[j].content
        && vectors[j] == snippets[j].embedding && metadatas[j] == LegacyMetadataOf(FieldsOf(snippets[j]))
    {
      var s := snippets[i];
      ids[i] := s.id;
      documents[i] := s.content;
      vectors[i] := s.embedding;
      metadatas[i] := map["filename" := s.filename, "language" := s.language];
    }
    req := AddRequest(ids[..], documents[..], vectors[..], metadatas[..]);
    err := stored;
  }

  /** The texts of the embedding request: a slice of the snippets' length filled with their contents. */
  method CollectTexts(snippets: seq<Snippet>) returns (texts: seq<string>)
    ensures ContentsOf(texts, snippets)
  {
    var buffer := new string[|snippets|];
    for i := 0 to |snippets|
      invariant forall j :: 0 <= j < i ==> buffer[j] == snippets[j].content
    {
      buffer[i] := snippets[i].content;
    }
    texts := buffer[..];
  }

  /**
   * `ProjectEmbedder.EmbedProject` of the in-process pipeline. The texts are
   * collected; an embedding error is returned wrapped, nothing touched or
   * stored. Otherwise every snippet gets the vector at its position (for a
   * snippet listed twice, the later position's), the other fields stay as
   * they were, and the store's error is returned, the vectors staying
   * attached. The code indexes the response by snippet position, so a
   * successful call must return at least one vector per snippet.
   */
  method EmbedProject(snippets: seq<Snippet>, create: Result<seq<Vector>>, stored: Option<Error>)
    returns (err: Option<Error>, texts: seq<string>, added: Option<AddRequest>)
    requires create.Ok? ==> |create.value| >= |snippets|
    modifies Objects(snippets)
    ensures ContentsOf(texts, snippets)
    ensures create.Err? ==>
      err == Some(Wrapped(CreateFailure, create.error)) && added == None
      && forall s :: s in snippets ==> s.embedding == old(s.embedding)
    ensures create.Ok? ==>
      (forall j :: 0 <= j < |snippets| ==> snippets[j].embedding == create.value[LastIndex(snippets, j)])
      && added.Some? && DescribesLegacy(added.value, AllFields(snippets), Embeddings(snippets))
      && err == stored
  {
    texts := CollectTexts(snippets);
    if create.Err? {
      return Some(Wrapped(CreateFailure, create.error)), texts, None;
    }
    var embeddings := create.value;
    AttachEmbeddings(snippets, embeddings);
    var persistErr, req := PersistEmbeddings(snippets, stored);
    return persistErr, texts, Some(req);
  }

  /** The wrapped embedding error still carries the client's error as its cause (`errors.Is` sees through it). */
  lemma EmbedErrorKeepsCause(cause: Error)
    ensures var e := Wrapped(CreateFailure, cause); e.Wrapped? && e.cause == cause && !IsHttpError(e)
  {
  }

  /**
   * What the in-process pipeline stores is what the service stores minus the
   * project tag: same ids, documents and vectors, and each metadata is the
   * service's without `project_id`.
   */
  lemma LegacyStoreDropsProject(legacy: AddRequest, service: AddRequest, fields: seq<Fields>, embeddings: seq<Vector>, projectId: string)
    requires |fields| == |embeddings|
    requires DescribesLegacy(legacy, fields, embeddings)
    requires Describes(service, fields, embeddings, projectId)
    ensures legacy.ids == service.ids && legacy.documents == service.documents && legacy.embeddings == service.embeddings
    ensures |legacy.metadatas| == |service.metadatas|
    ensures forall i :: 0 <= i < |fields| ==> legacy.metadatas[i] == service.metadatas[i] - {ProjectIdKey}
  {
    forall i | 0 <= i < |fields| ensures legacy.metadatas[i] == service.metadatas[i] - {ProjectIdKey} {
      var m := MetadataOf(fields[i], projectId);
      assert m - {ProjectIdKey} == LegacyMetadataOf(fields[i]);
    }
  }
}
