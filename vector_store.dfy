/**
 * The local vector store: documents with embeddings, kept in memory and
 * mirrored to a JSON file, queried by cosine similarity.
 *
 * The file is modelled by the store's `disk` field, holding the decoded JSON
 * value the file contains (None when there is no file). Reading it is
 * `Load`, writing it is `Save`; the text encoding is not modelled.
 */
module VectorStore {
  import opened Wrappers
  import opened JsonValue
  import opened Similarity
  import opened Ranking

  datatype StoredDocument = StoredDocument(
    documentId: string,
    text: string,
    metadata: map<string, Json>,
    embedding: seq<real>)

  /** Why a persisted payload could not be turned back into documents. */
  datatype LoadError =
    | NotAnObject             // the payload, or one of its items, is not a JSON object
    | MissingKey(key: string) // a required key is absent
    | WrongType(key: string)  // a key holds a value of the wrong kind

  datatype StoreError =
    | EmbeddingLength(documentId: string, actual: nat, expected: int)
    | QueryLength(actual: nat, expected: int)
    | LoadFailed(cause: LoadError)

  // ------------------------------------------------------------------
  // Persistence format
  // ------------------------------------------------------------------

  function EncodeNumbers(v: seq<real>): seq<Json>
  {
    seq(|v|, i requires 0 <= i < |v| => JNumber(v[i]))
  }

  /** One document as the object `_save` writes for it. */
  function EncodeDocument(d: StoredDocument): Json
  {
    JObject(map[
      "document_id" := JString(d.documentId),
      "text" := JString(d.text),
      "metadata" := JObject(d.metadata),
      "embedding" := JArray(EncodeNumbers(d.embedding))])
  }

  /** The whole file: `{"documents": [...]}` in store order. */
  function EncodePayload(docs: seq<StoredDocument>): Json
  {
    JObject(map["documents" := JArray(seq(|docs|, i requires 0 <= i < |docs| => EncodeDocument(docs[i])))])
  }

  /** An embedding read back; every element must be a number. */
  function DecodeNumbers(items: seq<Json>): Option<seq<real>>
  {
    if forall i :: 0 <= i < |items| ==> items[i].JNumber? then
      Some(seq(|items|, i requires 0 <= i < |items| => if items[i].JNumber? then items[i].n else 0.0))
    else None
  }

  /**
   * One stored object back into a document. Keys are looked up in the order
   * the constructor call reads them: document_id, text, metadata (which
   * defaults to an empty map), embedding.
   */
  function DecodeDocument(item: Json): Result<StoredDocument, LoadError>
  {
    if !item.JObject? then Failure(NotAnObject)
    else
      var f := item.fields;
      if "document_id" !in f then Failure(MissingKey("document_id"))
      else if !f["document_id"].JString? then Failure(WrongType("document_id"))
      else if "text" !in f then Failure(MissingKey("text"))
      else if !f["text"].JString? then Failure(WrongType("text"))
      else if "metadata" in f && !f["metadata"].JObject? then Failure(WrongType("metadata"))
      else if "embedding" !in f then Failure(MissingKey("embedding"))
      else if !f["embedding"].JArray? then Failure(WrongType("embedding"))
      else
        var metadata := if "metadata" in f then f["metadata"].fields else map[];
        match DecodeNumbers(f["embedding"].items)
        case None => Failure(WrongType("embedding"))
        case Some(v) => Success(StoredDocument(f["document_id"].s, f["text"].s, metadata, v))
  }

  /** The items in order, stopping at the first that does not decode. */
  function DecodeDocuments(items: seq<Json>): Result<seq<StoredDocument>, LoadError>
  {
    if items == [] then Success([])
    else
      match DecodeDocuments(items[..|items| - 1])
      case Failure(e) => Failure(e)
      case Success(docs) =>
        match DecodeDocument(items[|items| - 1])
        case Failure(e) => Failure(e)
        case Success(d) => Success(docs + [d])
  }

  /**
   * What `payload.get("documents", [])` iterates over. A missing key, an
   * empty string and an empty object all give no items; a non-empty string
   * or object yields strings, so its first item is not an object; null,
   * booleans and numbers cannot be iterated at all.
   */
  function DocumentItems(payload: map<string, Json>): Result<seq<Json>, LoadError>
  {
    if "documents" !in payload then Success([])
    else
      match payload["documents"]
      case JArray(items) => Success(items)
      case JString(s) => if s == "" then Success([]) else Failure(NotAnObject)
      case JObject(m) => if m == map[] then Success([]) else Failure(NotAnObject)
      case _ => Failure(WrongType("documents"))
  }

  /** The documents a persisted payload holds, or why it cannot be read. */
  function DecodePayload(payload: Json): Result<seq<StoredDocument>, LoadError>
  {
    if !payload.JObject? then Failure(NotAnObject)
    else
      match DocumentItems(payload.fields)
      case Failure(e) => Failure(e)
      case Success(items) => DecodeDocuments(items)
  }

  lemma DecodeEncodedDocument(d: StoredDocument)
    ensures DecodeDocument(EncodeDocument(d)) == Success(d)
  {
    var items := EncodeNumbers(d.embedding);
    assert forall i :: 0 <= i < |items| ==> items[i].JNumber?;
    assert seq(|items|, i requires 0 <= i < |items| => if items[i].JNumber? then items[i].n else 0.0)
        == d.embedding;
  }

  lemma {:induction false} DecodeEncodedDocuments(docs: seq<StoredDocument>)
    ensures DecodeDocuments(seq(|docs|, i requires 0 <= i < |docs| => EncodeDocument(docs[i])))
         == Success(docs)
  {
    var items := seq(|docs|, i requires 0 <= i < |docs| => EncodeDocument(docs[i]));
    if docs != [] {
      var n := |docs|;
      var front := docs[..n - 1];
      assert items[..n - 1] == seq(|front|, i requires 0 <= i < |front| => EncodeDocument(front[i]));
      DecodeEncodedDocuments(front);
      DecodeEncodedDocument(docs[n - 1]);
      assert docs == front + [docs[n - 1]];
    }
  }

  /** Reading back what `_save` wrote gives the same documents, in the same order. */
  lemma PayloadRoundTrip(docs: seq<StoredDocument>)
    ensures DecodePayload(EncodePayload(docs)) == Success(docs)
  {
    DecodeEncodedDocuments(docs);
  }

  /** Once an item fails to decode, the items after it do not matter. */
  lemma {:induction false} DecodeFailurePersists(items: seq<Json>, j: nat)
    requires j <= |items|
    requires DecodeDocuments(items[..j]).Failure?
    ensures DecodeDocuments(items) == DecodeDocuments(items[..j])
    decreases |items| - j
  {
    if j < |items| {
      var n := |items|;
      assert items[..n][..n - 1] == items[..n - 1];
      if j < n - 1 {
        assert items[..n - 1][..j] == items[..j];
        DecodeFailurePersists(items[..n - 1], j);
      } else {
        assert items[..n - 1] == items[..j];
      }
    } else {
      assert items[..j] == items;
    }
  }

  /** Any stored object without "metadata" that loads has an empty metadata map. */
  lemma MetadataDefaultsToEmpty(f: map<string, Json>)
    requires "metadata" !in f
    requires DecodeDocument(JObject(f)).Success?
    ensures DecodeDocument(JObject(f)).value.metadata == map[]
  {
  }

  /** An object with the three required keys and no "metadata" loads. */
  lemma EntryWithoutMetadataLoads(id: string, text: string, embedding: seq<real>)
    ensures DecodeDocument(JObject(map["document_id" := JString(id), "text" := JString(text),
                                       "embedding" := JArray(EncodeNumbers(embedding))]))
         == Success(StoredDocument(id, text, map[], embedding))
  {
    var items := EncodeNumbers(embedding);
    assert forall i :: 0 <= i < |items| ==> items[i].JNumber?;
    assert seq(|items|, i requires 0 <= i < |items| => if items[i].JNumber? then items[i].n else 0.0)
        == embedding;
  }

  // ------------------------------------------------------------------
  // Validation and similarity ranking
  // ------------------------------------------------------------------

  /**
   * The error `add` raises for a batch: the first document, in batch order,
   * whose embedding length differs from the store's dimension.
   */
  function CheckDimensions(batch: seq<StoredDocument>, dim: int): (r: Option<StoreError>)
    ensures r.None? <==> forall i :: 0 <= i < |batch| ==> |batch[i].embedding| == dim
    ensures r.Some? ==> exists i :: (0 <= i < |batch| && |batch[i].embedding| != dim
      && (forall j :: 0 <= j < i ==> |batch[j].embedding| == dim)
      && r.value == EmbeddingLength(batch[i].documentId, |batch[i].embedding|, dim))
  {
    if batch == [] then None
    else if |batch[0].embedding| != dim then
      Some(EmbeddingLength(batch[0].documentId, |batch[0].embedding|, dim))
    else
      var r := CheckDimensions(batch[1..], dim);
      assert forall i :: 0 < i < |batch| ==> batch[i] == batch[1..][i - 1];
      if r.Some? then
        var k :| 0 <= k < |batch[1..]| && |batch[1..][k].embedding| != dim
          && (forall j :: 0 <= j < k ==> |batch[1..][j].embedding| == dim)
          && r.value == EmbeddingLength(batch[1..][k].documentId, |batch[1..][k].embedding|, dim);
        assert forall j :: 0 <= j < k + 1 ==> |batch[j].embedding| == dim;
        r
      else r
  }

  /** Every document of the store has an embedding of the store's dimension. */
  ghost predicate WellDimensioned(docs: seq<StoredDocument>, dim: int)
  {
    forall i :: 0 <= i < |docs| ==> |docs[i].embedding| == dim
  }

  /** Each document paired with its similarity to the probe, in store order. */
  function ScoreAll(docs: seq<StoredDocument>, probe: seq<real>): seq<Scored<StoredDocument>>
  {
    seq(|docs|, i requires 0 <= i < |docs| => Scored(CosineKey(docs[i].embedding, probe), docs[i]))
  }

  /** All documents, most similar first, ties in store order. */
  function Ranked(docs: seq<StoredDocument>, probe: seq<real>): seq<StoredDocument>
  {
    Items(SortDescending(ScoreAll(docs, probe)))
  }

  /** What `query` returns for the store's documents. */
  function QueryResult(docs: seq<StoredDocument>, dim: int, probe: seq<real>, topK: int)
    : Result<seq<StoredDocument>, StoreError>
  {
    if docs == [] then Success([])
    else if |probe| != dim then Failure(QueryLength(|probe|, dim))
    else Success(SliceTo(Ranked(docs, probe), topK))
  }

  /** The ranking holds every document exactly as often as the store does. */
  lemma RankedIsPermutation(docs: seq<StoredDocument>, probe: seq<real>)
    ensures multiset(Ranked(docs, probe)) == multiset(docs)
  {
    var scored := ScoreAll(docs, probe);
    var sorted := SortDescending(scored);
    SortPermutes(scored);
    ItemsOfPermutation(sorted, scored);
    assert Items(scored) == docs;
  }

  /** Each ranked entry carries its own document's similarity to the probe. */
  lemma {:induction false} SortedScoresAreKeys(docs: seq<StoredDocument>, probe: seq<real>)
    ensures forall e :: e in SortDescending(ScoreAll(docs, probe)) ==>
      e.score == CosineKey(e.item.embedding, probe)
  {
    var scored := ScoreAll(docs, probe);
    SortPermutes(scored);
    forall e | e in SortDescending(scored)
      ensures e.score == CosineKey(e.item.embedding, probe)
    {
      assert e in multiset(SortDescending(scored));
      assert e in multiset(scored);
    }
  }

  /** Scoring the ranked documents again gives back the sorted scores. */
  lemma RescoreRanked(docs: seq<StoredDocument>, probe: seq<real>)
    ensures ScoreAll(Ranked(docs, probe), probe) == SortDescending(ScoreAll(docs, probe))
  {
    var sorted := SortDescending(ScoreAll(docs, probe));
    SortedScoresAreKeys(docs, probe);
    SortPermutes(ScoreAll(docs, probe));
    assert forall i :: 0 <= i < |sorted| ==> sorted[i] in sorted;
  }

  /** The ranking puts more similar documents first. */
  lemma RankedIsDescending(docs: seq<StoredDocument>, probe: seq<real>)
    ensures forall i, j :: 0 <= i < j < |Ranked(docs, probe)| ==>
      CosineKey(Ranked(docs, probe)[i].embedding, probe)
        >= CosineKey(Ranked(docs, probe)[j].embedding, probe)
  {
    var sorted := SortDescending(ScoreAll(docs, probe));
    SortIsDescending(ScoreAll(docs, probe));
    SortedScoresAreKeys(docs, probe);
    assert forall i :: 0 <= i < |sorted| ==> sorted[i] in sorted;
  }

  /** The documents of `s` whose similarity to the probe is exactly k, in order. */
  function Tied(s: seq<StoredDocument>, probe: seq<real>, k: real): seq<StoredDocument>
  {
    if s == [] then []
    else
      var last := s[|s| - 1];
      Tied(s[..|s| - 1], probe, k) + (if CosineKey(last.embedding, probe) == k then [last] else [])
  }

  lemma {:induction false} TiedIsWithScore(s: seq<StoredDocument>, probe: seq<real>, k: real)
    ensures Tied(s, probe, k) == Items(WithScore(ScoreAll(s, probe), k))
  {
    if s != [] {
      var n := |s|;
      var scored := ScoreAll(s, probe);
      assert scored[..n - 1] == ScoreAll(s[..n - 1], probe);
      TiedIsWithScore(s[..n - 1], probe, k);
      ItemsAppend(WithScore(scored[..n - 1], k),
        if scored[n - 1].score == k then [scored[n - 1]] else []);
    }
  }

  /** Documents equally similar to the probe keep their store order. */
  lemma RankedKeepsTieOrder(docs: seq<StoredDocument>, probe: seq<real>, k: real)
    ensures Tied(Ranked(docs, probe), probe, k) == Tied(docs, probe, k)
  {
    RescoreRanked(docs, probe);
    TiedIsWithScore(Ranked(docs, probe), probe, k);
    TiedIsWithScore(docs, probe, k);
    SortIsStable(ScoreAll(docs, probe), k);
  }

  /**
   * A successful query returns the leading entries of the ranking: top_k of
   * them when 0 <= top_k (all documents when top_k exceeds their number),
   * all but the last -top_k when top_k < 0; none of the documents left out is
   * more similar to the probe than any returned one.
   */
  lemma QueryReturnsBest(docs: seq<StoredDocument>, dim: int, probe: seq<real>, topK: int)
    requires QueryResult(docs, dim, probe, topK).Success?
    ensures var r := QueryResult(docs, dim, probe, topK).value;
      && r == Ranked(docs, probe)[..|r|]
      && (0 <= topK ==> |r| == (if topK < |docs| then topK else |docs|))
      && (topK < 0 ==> |r| == (if |docs| + topK > 0 then |docs| + topK else 0))
      && forall i, j :: 0 <= i < |r| <= j < |Ranked(docs, probe)| ==>
           CosineKey(Ranked(docs, probe)[j].embedding, probe) <= CosineKey(r[i].embedding, probe)
  {
    var ranked := Ranked(docs, probe);
    RankedIsPermutation(docs, probe);
    assert |ranked| == |multiset(ranked)| == |docs|;
    RankedIsDescending(docs, probe);
  }

  /** Every returned document is one of the store's documents. */
  lemma QueryReturnsStored(docs: seq<StoredDocument>, dim: int, probe: seq<real>, topK: int)
    requires QueryResult(docs, dim, probe, topK).Success?
    ensures multiset(QueryResult(docs, dim, probe, topK).value) <= multiset(docs)
  {
    if docs != [] {
      var ranked := Ranked(docs, probe);
      var r := QueryResult(docs, dim, probe, topK).value;
      RankedIsPermutation(docs, probe);
      assert ranked == r + ranked[|r|..];
    }
  }

  /**
   * Store [1,0,0], [0,1,0], [0.8,0.2,0] and probe [1,0,0] with top_k = 2:
   * the exact match comes first, the partial overlap second, and the
   * orthogonal vector is cut off.
   */
  lemma ExactMatchRanksFirst(a: StoredDocument, b: StoredDocument, c: StoredDocument)
    requires a.embedding == [1.0, 0.0, 0.0]
    requires b.embedding == [0.0, 1.0, 0.0]
    requires c.embedding == [0.8, 0.2, 0.0]
    ensures QueryResult([a, b, c], 3, [1.0, 0.0, 0.0], 2) == Success([a, c])
  {
    var probe := [1.0, 0.0, 0.0];
    Expand3(1.0, 0.0, 0.0, 1.0, 0.0, 0.0);
    Expand3(0.0, 1.0, 0.0, 1.0, 0.0, 0.0);
    Expand3(0.8, 0.2, 0.0, 1.0, 0.0, 0.0);
    assert CosineKey(a.embedding, probe) == 1.0;
    assert CosineKey(b.embedding, probe) == 0.0;
    assert CosineKey(c.embedding, probe) == 0.64 / 0.68;
    var scored := ScoreAll([a, b, c], probe);
    assert scored == [Scored(1.0, a), Scored(0.0, b), Scored(0.64 / 0.68, c)];
    assert scored[..2] == [Scored(1.0, a), Scored(0.0, b)];
    assert scored[..2][..1] == [Scored(1.0, a)];
    assert [Scored(1.0, a)][..0] == [];
    assert SortDescending(scored[..2][..1]) == [Scored(1.0, a)];
    assert SortDescending(scored[..2]) == [Scored(1.0, a), Scored(0.0, b)];
    assert Insert([Scored(1.0, a)], Scored(0.64 / 0.68, c)) == [Scored(1.0, a), Scored(0.64 / 0.68, c)];
    var sorted := [Scored(1.0, a), Scored(0.64 / 0.68, c), Scored(0.0, b)];
    assert SortDescending(scored) == sorted;
    assert Items(sorted) == [a, c, b];
    assert SliceTo([a, c, b], 2) == [a, c];
  }

  /**
   * Store [1,0,0] then [0,1,0], probe [0.8,0.2,0], top_k = 2: both come back,
   * the first one (closer to the probe) ahead of the second.
   */
  lemma CloserDocumentRanksFirst(a: StoredDocument, b: StoredDocument)
    requires a.embedding == [1.0, 0.0, 0.0]
    requires b.embedding == [0.0, 1.0, 0.0]
    ensures QueryResult([a, b], 3, [0.8, 0.2, 0.0], 2) == Success([a, b])
  {
    var probe := [0.8, 0.2, 0.0];
    Expand3(1.0, 0.0, 0.0, 0.8, 0.2, 0.0);
    Expand3(0.0, 1.0, 0.0, 0.8, 0.2, 0.0);
    Expand3(0.8, 0.2, 0.0, 0.8, 0.2, 0.0);
    assert CosineKey(a.embedding, probe) == 0.64 / 0.68;
    assert CosineKey(b.embedding, probe) == 0.04 / 0.68;
    var scored := ScoreAll([a, b], probe);
    assert scored == [Scored(0.64 / 0.68, a), Scored(0.04 / 0.68, b)];
    assert scored[..1] == [Scored(0.64 / 0.68, a)];
    assert scored[..1][..0] == [];
    assert SortDescending(scored[..1]) == [Scored(0.64 / 0.68, a)];
    assert SortDescending(scored) == scored;
    assert Items(scored) == [a, b];
  }

  /**
   * Loading does not look at embedding lengths: a file holding a
   * one-element embedding opens as it is in a store of dimension 3.
   */
  lemma LoadKeepsAnyDimension(d: StoredDocument)
    requires |d.embedding| == 1
    ensures DecodePayload(EncodePayload([d])) == Success([d])
    ensures !WellDimensioned([d], 3)
  {
    PayloadRoundTrip([d]);
  }

  // ------------------------------------------------------------------
  // The store
  // ------------------------------------------------------------------

  class LocalVectorStore {
    const persistPath: string
    const vectorDimension: int
    var documents: seq<StoredDocument>
    /** The decoded contents of the file at persistPath; None while there is no file. */
    var disk: Option<Json>

    /** The file, once there is one, holds exactly the in-memory documents. */
    ghost predicate Persisted()
      reads this
    {
      match disk
      case None => documents == []
      case Some(p) => DecodePayload(p) == Success(documents)
    }

    /** An empty store over whatever the file currently holds. */
    constructor Init(persistPath: string, vectorDimension: int, file: Option<Json>)
      ensures this.persistPath == persistPath && this.vectorDimension == vectorDimension
      ensures documents == [] && disk == file
    {
      this.persistPath := persistPath;
      this.vectorDimension := vectorDimension;
      documents := [];
      disk := file;
    }

    function Len(): nat
      reads this
    {
      |documents|
    }

    /** Replaces the documents by those the file holds, or reports why it cannot be read. */
    method Load() returns (err: Option<LoadError>)
      requires disk.Some?
      modifies this
      ensures disk == old(disk)
      ensures DecodePayload(disk.value).Success? ==>
        err == None && documents == DecodePayload(disk.value).value
      ensures DecodePayload(disk.value).Failure? ==>
        err == Some(DecodePayload(disk.value).error) && documents == old(documents)
    {
      var payload := disk.value;
      if !payload.JObject? {
        return Some(NotAnObject);
      }
      var items := DocumentItems(payload.fields);
      if items.Failure? {
        return Some(items.error);
      }
      var all := items.value;
      var loaded: seq<StoredDocument> := [];
      var i := 0;
      while i < |all|
        invariant 0 <= i <= |all|
        invariant DecodeDocuments(all[..i]) == Success(loaded)
      {
        var d := DecodeDocument(all[i]);
        assert all[..i + 1][..i] == all[..i];
        if d.Failure? {
          DecodeFailurePersists(all, i + 1);
          return Some(d.error);
        }
        loaded := loaded + [d.value];
        i := i + 1;
      }
      assert all[..i] == all;
      documents := loaded;
      return None;
    }

    /** Writes every document to the file, in store order. */
    method Save()
      modifies this
      ensures documents == old(documents)
      ensures disk == Some(EncodePayload(documents))
      ensures Persisted()
    {
      disk := Some(EncodePayload(documents));
      PayloadRoundTrip(documents);
    }

    /**
     * Appends a batch and rewrites the file. An empty batch changes nothing;
     * a batch holding a document of the wrong dimension is refused whole.
     */
    method Add(batch: seq<StoredDocument>) returns (err: Option<StoreError>)
      modifies this
      ensures err == CheckDimensions(batch, vectorDimension)
      ensures err.Some? || batch == [] ==> documents == old(documents) && disk == old(disk)
      ensures err.None? && batch != [] ==>
        documents == old(documents) + batch && disk == Some(EncodePayload(documents))
      ensures old(Persisted()) ==> Persisted()
      ensures old(WellDimensioned(documents, vectorDimension)) ==> WellDimensioned(documents, vectorDimension)
    {
      if batch == [] {
        return None;
      }
      var i := 0;
      while i < |batch|
        invariant 0 <= i <= |batch|
        invariant forall j :: 0 <= j < i ==> |batch[j].embedding| == vectorDimension
      {
        if |batch[i].embedding| != vectorDimension {
          return Some(EmbeddingLength(batch[i].documentId, |batch[i].embedding|, vectorDimension));
        }
        i := i + 1;
      }
      documents := documents + batch;
      Save();
      return None;
    }

    /** The top_k stored documents most similar to the probe. */
    method Query(probe: seq<real>, topK: int) returns (r: Result<seq<StoredDocument>, StoreError>)
      ensures r == QueryResult(documents, vectorDimension, probe, topK)
    {
      if documents == [] {
        return Success([]);
      }
      if |probe| != vectorDimension {
        return Failure(QueryLength(|probe|, vectorDimension));
      }
      var docs := documents;
      var scored := new Scored<StoredDocument>[|docs|](
        i requires 0 <= i < |docs| => Scored(CosineKey(docs[i].embedding, probe), docs[i]));
      assert scored[..] == ScoreAll(docs, probe);
      SortInPlace(scored);
      return Success(SliceTo(Items(scored[..]), topK));
    }
  }

  /**
   * Opens the store over the file's current contents: an absent file gives an
   * empty store, a readable one its documents, an unreadable one an error.
   */
  method Open(persistPath: string, vectorDimension: int, file: Option<Json>)
      returns (r: Result<LocalVectorStore, StoreError>)
    ensures r.Failure? <==> file.Some? && DecodePayload(file.value).Failure?
    ensures r.Failure? ==> r.error == LoadFailed(DecodePayload(file.value).error)
    ensures r.Success? ==> (fresh(r.value)
      && r.value.persistPath == persistPath && r.value.vectorDimension == vectorDimension
      && r.value.disk == file && r.value.Persisted()
      && r.value.documents == (if file.None? then [] else DecodePayload(file.value).value))
  {
    var store := new LocalVectorStore.Init(persistPath, vectorDimension, file);
    if file.Some? {
      var err := store.Load();
      if err.Some? {
        return Failure(LoadFailed(err.value));
      }
    }
    return Success(store);
  }
}
