/**
 * The vector-store repository of the review service
 * (services/code-reviewer/internal/repositories/embeddings_repo.go).
 *
 * The Chroma collection is a collaborator: `Add` hands it one request made of
 * four parallel lists and returns whatever error it reports, and
 * `GetNearestRecord` sends it one query and maps the grouped answer back to
 * snippets. The similarity search itself is not modelled; the collection's
 * answer is an input.
 */
module EmbeddingsRepo {
  import opened Errors
  import opened Models

  const ProjectIdKey: string := "project_id"

  /** A document's metadata: string attributes by name. */
  type Metadata = map<string, string>

  /** `metadata.GetString(key)` with its flag ignored: the empty string for a missing key. */
  function Attribute(m: Metadata, key: string): string {
    if key in m then m[key] else ""
  }

  /** The arguments of one `ChromaCollection.Add` call. */
  datatype AddRequest = AddRequest(ids: seq<string>, documents: seq<string>, embeddings: seq<Vector>, metadatas: seq<Metadata>)

  /** The metadata the service attaches to a snippet of project `projectId`. */
  function MetadataOf(f: Fields, projectId: string): (m: Metadata)
    ensures Attribute(m, "filename") == f.filename
    ensures Attribute(m, "language") == f.language
    ensures Attribute(m, ProjectIdKey) == projectId
  {
    map["filename" := f.filename, "language" := f.language, ProjectIdKey := projectId]
  }

  /** The embedding of every snippet, in order. */
  function Embeddings(snippets: seq<Snippet>): (r: seq<Vector>)
    reads Objects(snippets)
    ensures |r| == |snippets| && forall i :: 0 <= i < |snippets| ==> r[i] == snippets[i].embedding
  {
    if snippets == [] then [] else [snippets[0].embedding] + Embeddings(snippets[1..])
  }

  /** Entry `i` of each of the four lists is taken from snippet `i`, every metadata tagged with the project. */
  predicate Describes(req: AddRequest, fields: seq<Fields>, embeddings: seq<Vector>, projectId: string)
    requires |fields| == |embeddings|
  {
    |req.ids| == |fields| && |req.documents| == |fields| && |req.embeddings| == |fields| && |req.metadatas| == |fields|
    && forall i :: 0 <= i < |fields| ==>
         req.ids[i] == fields[i].id && req.documents[i] == fields[i].content
         && req.embeddings[i] == embeddings[i] && req.metadatas[i] == MetadataOf(fields[i], projectId)
  }

  /**
   * `Add`: one list entry per snippet, in order, then a single call to the
   * collection, whose error (`stored`) is returned unchanged.
   */
  method Add(snippets: seq<Snippet>, projectId: string, stored: Option<Error>) returns (err: Option<Error>, req: AddRequest)
    ensures Describes(req, AllFields(snippets), Embeddings(snippets), projectId)
    ensures forall i :: 0 <= i < |req.metadatas| ==> Attribute(req.metadatas[i], ProjectIdKey) == projectId
    ensures err == stored
  {
    var ids: seq<string> := [];
    var documents: seq<string> := [];
    var embeddingsList: seq<Vector> := [];
    var metadataList: seq<Metadata> := [];
    var k := 0;
    while k < |snippets|
      invariant 0 <= k <= |snippets|
      invariant Describes(AddRequest(ids, documents, embeddingsList, metadataList),
                          AllFields(snippets[..k]), Embeddings(snippets[..k]), projectId)
    {
      var s := snippets[k];
      ids := ids + [s.id];
      documents := documents + [s.content];
      embeddingsList := embeddingsList + [s.embedding];
      metadataList := metadataList + [map["filename" := s.filename, "language" := s.language, ProjectIdKey := projectId]];
      assert snippets[..k + 1] == snippets[..k] + [s];
      k := k + 1;
    }
    assert snippets[..k] == snippets;
    req := AddRequest(ids, documents, embeddingsList, metadataList);
    err := stored;
  }

  /** The arguments of one `ChromaCollection.Query` call: the query vector, the number of results, the `where` filter. */
  datatype Query = Query(vector: Vector, nResults: int, whereKey: string, whereValue: string)

  /** The collection's answer: documents and their metadata, one group per query vector. */
  datatype QueryResult = QueryResult(documents: seq<seq<string>>, metadatas: seq<seq<Metadata>>)

  /** What the code relies on when it indexes the answer: a metadata for every document of the first group. */
  predicate WellFormed(r: QueryResult) {
    |r.documents| == 0 || (|r.metadatas| >= 1 && |r.metadatas[0]| >= |r.documents[0]|)
  }

  /** The snippet the repository makes of a document and its metadata: no id, no embedding. */
  function Retrieved(doc: string, meta: Metadata): Fields {
    Fields("", doc, Attribute(meta, "filename"), Attribute(meta, "language"))
  }

  /**
   * `GetNearestRecord`: the query asks for `nResult` neighbours of the vector
   * among the documents tagged with `projectId`. A query error is returned
   * unchanged; an answer without groups is the empty list; otherwise snippet
   * `i` is document `i` of the first group with the file name and language of
   * its metadata, in order, with no id and no embedding.
   */
  method GetNearestRecord(vector: Vector, nResult: int, projectId: string, answer: Result<QueryResult>)
    returns (r: Result<seq<Snippet>>, query: Query)
    requires answer.Ok? ==> WellFormed(answer.value)
    ensures query == Query(vector, nResult, ProjectIdKey, projectId)
    ensures answer.Err? ==> r == Err(answer.error)
    ensures answer.Ok? && answer.value.documents == [] ==> r == Ok([])
    ensures answer.Ok? && answer.value.documents != [] ==>
      var docs := answer.value.documents[0];
      var metas := answer.value.metadatas[0];
      r.Ok? && |r.value| == |docs|
      && (forall i :: 0 <= i < |docs| ==> FieldsOf(r.value[i]) == Retrieved(docs[i], metas[i]))
    ensures r.Ok? ==> forall s :: s in r.value ==> fresh(s) && s.embedding == []
  {
    query := Query(vector, nResult, ProjectIdKey, projectId);
    if answer.Err? {
      return Err(answer.error), query;
    }
    var results := answer.value;
    if |results.documents| == 0 {
      return Ok([]), query;
    }
    var documents := results.documents[0];
    var metadata := results.metadatas[0];
    var snippets: seq<Snippet> := [];
    var i := 0;
    while i < |documents|
      invariant 0 <= i <= |documents|
      invariant |snippets| == i
      invariant forall j :: 0 <= j < i ==> FieldsOf(snippets[j]) == Retrieved(documents[j], metadata[j])
      invariant forall s :: s in snippets ==> fresh(s) && s.embedding == []
    {
      var filename := Attribute(metadata[i], "filename");
      var language := Attribute(metadata[i], "language");
      var s := new Snippet("", documents[i], filename, language);
      snippets := snippets + [s];
      i := i + 1;
    }
    r := Ok(snippets);
  }

  /**
   * Round trip: when the collection answers with documents it was given by
   * `Add` (entries `picks` of an add request, in any order, with their
   * metadata), the retrieved snippets carry the content, file name and
   * language of the snippets that were added.
   */
  lemma RetrievedAfterAdd(req: AddRequest, fields: seq<Fields>, embeddings: seq<Vector>, projectId: string,
                          picks: seq<nat>, answer: QueryResult)
    requires |fields| == |embeddings| && Describes(req, fields, embeddings, projectId)
    requires forall j :: 0 <= j < |picks| ==> picks[j] < |fields|
    requires |answer.documents| >= 1 && |answer.metadatas| >= 1
    requires |answer.documents[0]| == |picks| && |answer.metadatas[0]| == |picks|
    requires forall j :: 0 <= j < |picks| ==>
      answer.documents[0][j] == req.documents[picks[j]] && answer.metadatas[0][j] == req.metadatas[picks[j]]
    ensures WellFormed(answer)
    ensures forall j :: 0 <= j < |picks| ==>
      Retrieved(answer.documents[0][j], answer.metadatas[0][j])
        == Fields("", fields[picks[j]].content, fields[picks[j]].filename, fields[picks[j]].language)
  {
    forall j | 0 <= j < |picks|
      ensures Retrieved(answer.documents[0][j], answer.metadatas[0][j])
        == Fields("", fields[picks[j]].content, fields[picks[j]].filename, fields[picks[j]].language)
    {
      var f := fields[picks[j]];
      assert answer.metadatas[0][j] == MetadataOf(f, projectId);
    }
  }
}
