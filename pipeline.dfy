/**
 * The research pipeline: research a query, embed and store what was found,
 * look up the stored documents most similar to the query, and summarise.
 *
 * The research agent, the embedding endpoint and the summary generator are
 * remote services; here they are function-valued fields of the pipeline.
 */
module Pipeline {
  import opened Wrappers
  import opened JsonValue
  import opened Ranking
  import opened VectorStore
  import opened ResearchAgent

  datatype ResearchOutput = ResearchOutput(
    query: string,
    snippets: seq<ResearchSnippet>,
    summary: string,
    similarDocuments: seq<StoredDocument>)

  datatype PipelineError =
    | ResearchFailed(reason: ParseError)                // the research step raised
    | LengthMismatch(snippets: nat, embeddings: nat)    // `zip(..., strict=True)` raised
    | StoreFailed(cause: StoreError)                    // `add` or `query` raised
    | MissingQueryEmbedding                             // `embed([query])[0]` had nothing to index

  const NoFindings: string := "No research findings were produced."

  // ------------------------------------------------------------------
  // Summary
  // ------------------------------------------------------------------

  /** `f"{title}: {summary or content[:200]}"` */
  function Bullet(s: ResearchSnippet): string
  {
    s.title + ": " + (if s.summary != "" then s.summary else SliceTo(s.content, 200))
  }

  function Bullets(snippets: seq<ResearchSnippet>): seq<string>
  {
    seq(|snippets|, i requires 0 <= i < |snippets| => Bullet(snippets[i]))
  }

  /** `"\n".join(lines)` */
  function JoinLines(lines: seq<string>): string
  {
    if lines == [] then ""
    else if |lines| == 1 then lines[0]
    else lines[0] + "\n" + JoinLines(lines[1..])
  }

  /** Position of the first newline, or the length when there is none. */
  function FirstNewline(s: string): (r: nat)
    ensures r <= |s|
    ensures r < |s| ==> s[r] == '\n'
    ensures forall k :: 0 <= k < r ==> s[k] != '\n'
  {
    if s == [] || s[0] == '\n' then 0 else 1 + FirstNewline(s[1..])
  }

  /** `text.split("\n")` */
  function SplitLines(text: string): (r: seq<string>)
    ensures r != []
    decreases |text|
  {
    var i := FirstNewline(text);
    if i == |text| then [text] else [text[..i]] + SplitLines(text[i + 1..])
  }

  /** Splitting the joined bullets at newlines gives the bullets back. */
  lemma {:induction false} SplitJoinLines(lines: seq<string>)
    requires lines != []
    requires forall i :: 0 <= i < |lines| ==> '\n' !in lines[i]
    ensures SplitLines(JoinLines(lines)) == lines
  {
    var a := lines[0];
    if |lines| == 1 {
      assert FirstNewline(a) == |a|;
    } else {
      var rest := lines[1..];
      var text := a + "\n" + JoinLines(rest);
      assert text[|a|] == '\n';
      assert forall k :: 0 <= k < |a| ==> text[k] == a[k];
      assert FirstNewline(text) == |a|;
      assert text[..|a|] == a;
      assert text[|a| + 1..] == JoinLines(rest);
      assert forall i :: 0 <= i < |rest| ==> rest[i] == lines[i + 1];
      SplitJoinLines(rest);
    }
  }

  /**
   * `_build_summary`: a fixed message when nothing was found; otherwise the
   * bullets joined line by line, or, with a generator, its answer for the
   * query and the bullets.
   */
  function BuildSummary(query: string, snippets: seq<ResearchSnippet>,
                        summarize: Option<(string, seq<string>) -> string>): string
  {
    var bullets := Bullets(snippets);
    if bullets == [] then NoFindings
    else if summarize.None? then JoinLines(bullets)
    else summarize.value(query, bullets)
  }

  /** Without findings the message is fixed, whatever generator is configured. */
  lemma EmptySummaryIgnoresGenerator(query: string, g: Option<(string, seq<string>) -> string>)
    ensures BuildSummary(query, [], g) == NoFindings
    ensures BuildSummary(query, [], g) == BuildSummary(query, [], None)
  {
    assert Bullets([]) == [];
  }

  /** Without a generator, each snippet is one line of the summary, in order. */
  lemma SummaryLinesAreBullets(query: string, snippets: seq<ResearchSnippet>)
    requires snippets != []
    requires forall i :: 0 <= i < |snippets| ==> '\n' !in Bullet(snippets[i])
    ensures SplitLines(BuildSummary(query, snippets, None)) == Bullets(snippets)
  {
    SplitJoinLines(Bullets(snippets));
  }

  /** A configured generator's answer is the summary, unchanged. */
  lemma GeneratorAnswerIsSummary(query: string, snippets: seq<ResearchSnippet>,
                                 g: (string, seq<string>) -> string)
    requires snippets != []
    ensures BuildSummary(query, snippets, Some(g)) == g(query, Bullets(snippets))
  {
    assert Bullets(snippets) != [];
  }

  /**
   * A bullet is the title, ": ", then the summary when there is one, and
   * otherwise the content cut to 200 characters.
   */
  lemma BulletShape(s: ResearchSnippet)
    ensures var b := Bullet(s);
      var tail := if s.summary != "" then s.summary else SliceTo(s.content, 200);
      b[..|s.title| + 2] == s.title + ": " && b[|s.title| + 2..] == tail
      && |tail| <= (if s.summary != "" then |s.summary| else 200)
  {
    var tail := if s.summary != "" then s.summary else SliceTo(s.content, 200);
    assert Bullet(s) == (s.title + ": ") + tail;
  }

  // ------------------------------------------------------------------
  // From snippets to stored documents
  // ------------------------------------------------------------------

  /** The texts that get embedded, one per snippet. */
  function Contents(snippets: seq<ResearchSnippet>): seq<string>
  {
    seq(|snippets|, i requires 0 <= i < |snippets| => snippets[i].content)
  }

  /** `embed`: no service call at all for an empty input. */
  function EmbedTexts(embed: seq<string> -> seq<seq<real>>, texts: seq<string>): seq<seq<real>>
  {
    if texts == [] then [] else embed(texts)
  }

  function DocumentFor(s: ResearchSnippet, embedding: seq<real>): StoredDocument
  {
    StoredDocument(
      if s.url != "" then s.url else s.title,
      s.content,
      map["title" := JString(s.title), "url" := JString(s.url), "summary" := JString(s.summary)],
      embedding)
  }

  /** The snippet a stored document was made from, read back from its text and metadata. */
  function SnippetFrom(d: StoredDocument): Option<ResearchSnippet>
  {
    var m := d.metadata;
    if "title" in m && m["title"].JString? && "url" in m && m["url"].JString?
       && "summary" in m && m["summary"].JString?
    then Some(ResearchSnippet(m["title"].s, m["url"].s, d.text, m["summary"].s))
    else None
  }

  /**
   * A stored document keeps everything about its snippet, takes the url as
   * its id (the title when the url is empty) and the paired embedding; its
   * metadata holds exactly the title, url and summary.
   */
  lemma DocumentKeepsSnippet(s: ResearchSnippet, e: seq<real>)
    ensures SnippetFrom(DocumentFor(s, e)) == Some(s)
    ensures DocumentFor(s, e).documentId == (if s.url != "" then s.url else s.title)
    ensures DocumentFor(s, e).embedding == e
    ensures DocumentFor(s, e).metadata.Keys == {"title", "url", "summary"}
  {
  }

  /** One document per snippet and embedding, paired by position as `zip` does. */
  function DocumentsFor(snippets: seq<ResearchSnippet>, embeddings: seq<seq<real>>): seq<StoredDocument>
  {
    var n := if |snippets| < |embeddings| then |snippets| else |embeddings|;
    seq(n, i requires 0 <= i < n => DocumentFor(snippets[i], embeddings[i]))
  }

  function PairUp(snippets: seq<ResearchSnippet>, embeddings: seq<seq<real>>)
    : Result<seq<StoredDocument>, PipelineError>
  {
    if |snippets| != |embeddings| then Failure(LengthMismatch(|snippets|, |embeddings|))
    else Success(DocumentsFor(snippets, embeddings))
  }

  /** The document-building loop of `run`, with the strict `zip` check at its end. */
  method BuildDocuments(snippets: seq<ResearchSnippet>, embeddings: seq<seq<real>>)
      returns (r: Result<seq<StoredDocument>, PipelineError>)
    ensures r == PairUp(snippets, embeddings)
  {
    var documents: seq<StoredDocument> := [];
    var i := 0;
    while i < |snippets| && i < |embeddings|
      invariant 0 <= i <= |snippets| && i <= |embeddings|
      invariant |documents| == i
      invariant forall k :: 0 <= k < i ==> documents[k] == DocumentFor(snippets[k], embeddings[k])
    {
      documents := documents + [DocumentFor(snippets[i], embeddings[i])];
      i := i + 1;
    }
    if |snippets| != |embeddings| {
      return Failure(LengthMismatch(|snippets|, |embeddings|));
    }
    assert documents == DocumentsFor(snippets, embeddings);
    return Success(documents);
  }

  // ------------------------------------------------------------------
  // One run
  // ------------------------------------------------------------------

  /** The batch a run hands to `add`, or why it stops before that. */
  function RunBatch(query: string, research: string -> Result<seq<ResearchSnippet>, ParseError>,
                    embed: seq<string> -> seq<seq<real>>): Result<seq<StoredDocument>, PipelineError>
  {
    match research(query)
    case Failure(e) => Failure(ResearchFailed(e))
    case Success(snippets) => PairUp(snippets, EmbedTexts(embed, Contents(snippets)))
  }

  /** The store's documents after a run that started from `docs`. */
  function StoredAfter(query: string, docs: seq<StoredDocument>, dim: int,
                       research: string -> Result<seq<ResearchSnippet>, ParseError>,
                       embed: seq<string> -> seq<seq<real>>): seq<StoredDocument>
  {
    match RunBatch(query, research, embed)
    case Failure(_) => docs
    case Success(batch) => if CheckDimensions(batch, dim).Some? then docs else docs + batch
  }

  /** What `run` returns for a store that held `docs`. */
  function RunOutcome(query: string, docs: seq<StoredDocument>, dim: int, topK: int,
                      research: string -> Result<seq<ResearchSnippet>, ParseError>,
                      embed: seq<string> -> seq<seq<real>>,
                      summarize: Option<(string, seq<string>) -> string>)
    : Result<ResearchOutput, PipelineError>
  {
    match RunBatch(query, research, embed)
    case Failure(e) => Failure(e)
    case Success(batch) =>
      if CheckDimensions(batch, dim).Some? then Failure(StoreFailed(CheckDimensions(batch, dim).value))
      else
        var probes := EmbedTexts(embed, [query]);
        if probes == [] then Failure(MissingQueryEmbedding)
        else
          match QueryResult(docs + batch, dim, probes[0], topK)
          case Failure(e) => Failure(StoreFailed(e))
          case Success(similar) =>
            var snippets := research(query).value;
            Success(ResearchOutput(query, snippets, BuildSummary(query, snippets, summarize), similar))
  }

  /** A snippet/embedding count mismatch stops the run before anything is stored. */
  lemma MismatchStoresNothing(query: string, docs: seq<StoredDocument>, dim: int, topK: int,
                              research: string -> Result<seq<ResearchSnippet>, ParseError>,
                              embed: seq<string> -> seq<seq<real>>,
                              summarize: Option<(string, seq<string>) -> string>)
    requires research(query).Success?
    requires |EmbedTexts(embed, Contents(research(query).value))| != |research(query).value|
    ensures StoredAfter(query, docs, dim, research, embed) == docs
    ensures RunOutcome(query, docs, dim, topK, research, embed, summarize)
         == Failure(LengthMismatch(|research(query).value|, |EmbedTexts(embed, Contents(research(query).value))|))
  {
  }

  /**
   * A successful run appended one document per snippet, in snippet order,
   * each carrying its snippet, the embedding paired with it and metadata
   * with exactly the keys title, url and summary.
   */
  lemma {:induction false} RunStoresEverySnippet(query: string, docs: seq<StoredDocument>, dim: int, topK: int,
                              research: string -> Result<seq<ResearchSnippet>, ParseError>,
                              embed: seq<string> -> seq<seq<real>>,
                              summarize: Option<(string, seq<string>) -> string>)
    requires RunOutcome(query, docs, dim, topK, research, embed, summarize).Success?
    ensures var snippets := research(query).value;
      var after := StoredAfter(query, docs, dim, research, embed);
      var embeddings := EmbedTexts(embed, Contents(snippets));
      |after| == |docs| + |snippets| && after[..|docs|] == docs
      && forall i :: 0 <= i < |snippets| ==>
           SnippetFrom(after[|docs| + i]) == Some(snippets[i])
           && after[|docs| + i].embedding == embeddings[i]
           && after[|docs| + i].documentId == (if snippets[i].url != "" then snippets[i].url else snippets[i].title)
           && |after[|docs| + i].embedding| == dim
           && after[|docs| + i].metadata.Keys == {"title", "url", "summary"}
  {
    var snippets := research(query).value;
    var embeddings := EmbedTexts(embed, Contents(snippets));
    var batch := DocumentsFor(snippets, embeddings);
    var after := StoredAfter(query, docs, dim, research, embed);
    assert after == docs + batch;
    forall i | 0 <= i < |snippets|
      ensures SnippetFrom(after[|docs| + i]) == Some(snippets[i])
      ensures after[|docs| + i].embedding == embeddings[i]
      ensures after[|docs| + i].metadata.Keys == {"title", "url", "summary"}
    {
      assert after[|docs| + i] == DocumentFor(snippets[i], embeddings[i]);
      DocumentKeepsSnippet(snippets[i], embeddings[i]);
    }
  }

  /**
   * A successful run echoes the query and the research result, and its
   * similar documents are the store's answer, after the add, to the
   * embedding of the query text alone with the configured top_k.
   */
  lemma RunOutputShape(query: string, docs: seq<StoredDocument>, dim: int, topK: int,
                       research: string -> Result<seq<ResearchSnippet>, ParseError>,
                       embed: seq<string> -> seq<seq<real>>,
                       summarize: Option<(string, seq<string>) -> string>)
    requires RunOutcome(query, docs, dim, topK, research, embed, summarize).Success?
    ensures var out := RunOutcome(query, docs, dim, topK, research, embed, summarize).value;
      research(query).Success? && embed([query]) != []
      && out.query == query && out.snippets == research(query).value
      && out.summary == BuildSummary(query, research(query).value, summarize)
      && QueryResult(StoredAfter(query, docs, dim, research, embed), dim, embed([query])[0], topK)
         == Success(out.similarDocuments)
  {
  }

  /**
   * With no findings nothing is stored and no embedding of snippets is
   * requested, yet the query is still embedded and looked up, so documents
   * stored by earlier runs can come back; the summary is the fixed message.
   */
  lemma NoFindingsStillQueries(query: string, docs: seq<StoredDocument>, dim: int, topK: int,
                               research: string -> Result<seq<ResearchSnippet>, ParseError>,
                               embed: seq<string> -> seq<seq<real>>,
                               summarize: Option<(string, seq<string>) -> string>)
    requires research(query) == Success([])
    requires embed([query]) != []
    requires QueryResult(docs, dim, embed([query])[0], topK).Success?
    ensures StoredAfter(query, docs, dim, research, embed) == docs
    ensures RunOutcome(query, docs, dim, topK, research, embed, summarize)
         == Success(ResearchOutput(query, [], NoFindings,
                                   QueryResult(docs, dim, embed([query])[0], topK).value))
  {
    assert Contents([]) == [];
    assert DocumentsFor([], []) == [];
    assert docs + [] == docs;
    EmptySummaryIgnoresGenerator(query, summarize);
  }

  /**
   * Two findings embedded as [1,0,0] and [0,1,0] into an empty store of
   * dimension 3, the query embedded as [0.8,0.2,0], top_k = 2, and a
   * generator answering "final summary": the run stores both documents and
   * returns both, the first finding ranked above the second.
   */
  lemma TwoFindingsEndToEnd(query: string, a: ResearchSnippet, b: ResearchSnippet,
                            research: string -> Result<seq<ResearchSnippet>, ParseError>,
                            embed: seq<string> -> seq<seq<real>>,
                            g: (string, seq<string>) -> string)
    requires a == ResearchSnippet("Article A", "https://example.com/a", "Detailed notes about article A", "Key findings from A")
    requires b == ResearchSnippet("Article B", "https://example.com/b", "Insights from article B", "Highlights from B")
    requires research(query) == Success([a, b])
    requires embed([a.content, b.content]) == [[1.0, 0.0, 0.0], [0.0, 1.0, 0.0]]
    requires embed([query]) == [[0.8, 0.2, 0.0]]
    requires g(query, Bullets([a, b])) == "final summary"
    ensures var docA := DocumentFor(a, [1.0, 0.0, 0.0]);
      var docB := DocumentFor(b, [0.0, 1.0, 0.0]);
      StoredAfter(query, [], 3, research, embed) == [docA, docB]
      && RunOutcome(query, [], 3, 2, research, embed, Some(g))
         == Success(ResearchOutput(query, [a, b], "final summary", [docA, docB]))
  {
    var docA := DocumentFor(a, [1.0, 0.0, 0.0]);
    var docB := DocumentFor(b, [0.0, 1.0, 0.0]);
    assert Contents([a, b]) == [a.content, b.content];
    var batch := DocumentsFor([a, b], [[1.0, 0.0, 0.0], [0.0, 1.0, 0.0]]);
    assert batch == [docA, docB];
    assert CheckDimensions(batch, 3).None?;
    assert [] + batch == batch;
    CloserDocumentRanksFirst(docA, docB);
    assert Bullets([a, b]) != [];
  }

  class ResearchPipeline {
    const store: LocalVectorStore
    const topK: int
    const research: string -> Result<seq<ResearchSnippet>, ParseError>
    const embed: seq<string> -> seq<seq<real>>
    const summarize: Option<(string, seq<string>) -> string>

    constructor (store: LocalVectorStore, topK: int,
                 research: string -> Result<seq<ResearchSnippet>, ParseError>,
                 embed: seq<string> -> seq<seq<real>>,
                 summarize: Option<(string, seq<string>) -> string>)
      ensures this.store == store && this.topK == topK
      ensures this.research == research && this.embed == embed && this.summarize == summarize
    {
      this.store := store;
      this.topK := topK;
      this.research := research;
      this.embed := embed;
      this.summarize := summarize;
    }

    /**
     * One end-to-end run: research the query, embed and store one document
     * per snippet, embed the query, look up the most similar stored
     * documents and summarise; the first step that fails ends the run.
     */
    method Run(query: string) returns (r: Result<ResearchOutput, PipelineError>)
      modifies store
      ensures r == RunOutcome(query, old(store.documents), store.vectorDimension, topK, research, embed, summarize)
      ensures store.documents == StoredAfter(query, old(store.documents), store.vectorDimension, research, embed)
      ensures store.documents == old(store.documents) ==> store.disk == old(store.disk)
      ensures store.documents != old(store.documents) ==> store.disk == Some(EncodePayload(store.documents))
      ensures old(store.Persisted()) ==> store.Persisted()
    {
      var found := research(query);
      if found.Failure? {
        return Failure(ResearchFailed(found.error));
      }
      var snippets := found.value;
      var embeddings := EmbedTexts(embed, Contents(snippets));
      var built := BuildDocuments(snippets, embeddings);
      if built.Failure? {
        return Failure(built.error);
      }
      ghost var before := store.documents;
      var added := store.Add(built.value);
      if added.Some? {
        return Failure(StoreFailed(added.value));
      }
      assert built.value == [] ==> before + built.value == before;
      assert store.documents == before + built.value;
      var probes := EmbedTexts(embed, [query]);
      if probes == [] {
        return Failure(MissingQueryEmbedding);
      }
      var similar := store.Query(probes[0], topK);
      if similar.Failure? {
        return Failure(StoreFailed(similar.error));
      }
      var summary := BuildSummary(query, snippets, summarize);
      return Success(ResearchOutput(query, snippets, summary, similar.value));
    }
  }
}
