# Research pipeline core in Dafny

This project models the core of `datasci_tool`, a data science research
assistant. For one query it:

1. asks a remote research agent for findings, which are streamed back as a
   JSON array;
2. embeds the content of each finding;
3. stores each finding as a document in a local, JSON-backed vector store;
4. embeds the query and retrieves the stored documents most similar to it
   by cosine similarity;
5. writes a summary.

The model has five modules:

- `Similarity` (`similarity.dfy`) is the cosine similarity of
  `LocalVectorStore._cosine_similarity`.
- `Ranking` (`ranking.dfy`) is the stable, descending sort of `query`. It is
  defined as a function on sequences and also written as an in-place sort
  over an array.
- `VectorStore` (`vector_store.dfy`) holds `StoredDocument` and the
  persistence format. `LocalVectorStore` is a class:
  - its `documents` field is the in-memory list;
  - its `disk` field is the decoded content of the JSON file;
  - its methods `Load`, `Save`, `Add` and `Query` change or read those fields
    as the Python methods do.
- `ResearchAgent` (`research_agent.dfy`) covers two things:
  - the loop that folds the response stream into one stripped text;
  - `_parse_json_array`, which turns the decoded array into `ResearchSnippet`s.
- `Pipeline` (`pipeline.dfy`) covers `ResearchPipeline.run` and
  `_build_summary`. The research agent, the embedding endpoint and the
  summary generator are function-valued fields of the pipeline object.

`Wrappers` (`wrappers.dfy`) provides `Option` and `Result`. `JsonValue`
(`json.dfy`) is the decoded JSON value that both the store file and the agent
response are read into.

These methods carry a loop, and each loop is proved against a function
or against its own ensures clauses:

- `Load` against `DecodePayload`;
- `Add` against `CheckDimensions`;
- `FindSlot` against its ensures clauses (the slot found);
- `ShiftRight` against its ensures clauses (the block moved);
- `SortInPlace` against `SortDescending`;
- `AccumulateText` against `Strip(CollectDeltas(..))`;
- `ParseJsonArray` against `Parse`;
- `BuildDocuments` against `PairUp`.

`InsertInPlace`, `Query` and `Run` have no loop of their own.
`InsertInPlace` calls `FindSlot` and `ShiftRight` and is proved against
`Insert` through `InsertAtSlot`. `Query` calls `SortInPlace` and
is proved against `QueryResult`. `Run` is proved against `RunOutcome` and
`StoredAfter`.

Lemmas then state what the source promises about those functions:

- the persistence round trip;
- ranking is a permutation, descending and stable;
- the top_k cut;
- the zero-norm rule;
- the parsing defaults and errors;
- the stream cut-off;
- the summary's line structure;
- the end-to-end scenario of the repository's test.

Some behaviour of the code is easy to get wrong, so the model states it
directly:

- **Exact match first.** For probe `[1,0,0]`, the exact match scores 1 and
  ranks first (`VectorStore.ExactMatchRanksFirst`).
- **Negative `top_k`.** The result is `scored[:top_k]`, so a negative
  `top_k` drops the last |top_k| entries (`Ranking.SliceTo`,
  `VectorStore.QueryReturnsBest`).
- **Empty store.** An empty store answers `[]` before the probe length is
  checked (`VectorStore.QueryResult`).

## Model

| member | source | states |
|---|---|---|
| Similarity.ZeroVectorScoresZero | datasci_tool/vector_store.py:101-107 | When either vector is all zeros the similarity is exactly 0, and no division happens. |
| Similarity.SignedSquareStrictlyIncreasing | datasci_tool/vector_store.py:101-107 | x·\|x\| is strictly increasing in x. |
| Similarity.CosineKeyIsSignedSquareOfCosine | datasci_tool/vector_store.py:101-107 | For non-zero vectors with norms ra and rb, the score is the signed square of the cosine dot / (ra·rb). |
| Similarity.CosineKeyOfCosine | datasci_tool/vector_store.py:101-107 | For all vectors, zero-norm ones included, the score is the signed square of `Cosine`. |
| Similarity.CosineOrderIsKeyOrder | datasci_tool/vector_store.py:95-98 | For all vectors, zero-norm ones included: one document's cosine to the probe is lower than another's iff its score is lower, and equal iff its score is equal. So ranking by the score is ranking by the cosine. |
| Similarity.CosineKeySymmetric | datasci_tool/vector_store.py:101-107 | The similarity does not depend on which vector is the probe. |
| Similarity.SumSquaresNonNegative | datasci_tool/vector_store.py:103-104 | The squared norms under the square roots are never negative. |
| Similarity.Expand3 | datasci_tool/vector_store.py:102-104 | For 3-vectors, the dot product and squared norm are the written-out sums the zip-based generator computes. |
| Ranking.SortPermutes | datasci_tool/vector_store.py:98 | The sort keeps every scored entry exactly as often as it occurs, and no others. |
| Ranking.SortIsDescending | datasci_tool/vector_store.py:98 | With `reverse=True`, sorted scores never increase along the list. |
| Ranking.SortIsStable | datasci_tool/vector_store.py:98 | Entries with equal scores keep their original relative order. |
| Ranking.StableSortIsUnique | datasci_tool/vector_store.py:98 | Two descending lists that agree on the order of every tie group are equal, so the sort is the only stable descending arrangement. |
| Ranking.InsertPermutes | datasci_tool/vector_store.py:98 | Inserting an entry adds exactly that entry. |
| Ranking.InsertKeepsDescending | datasci_tool/vector_store.py:98 | Inserting into a descending list keeps it descending. |
| Ranking.InsertStable | datasci_tool/vector_store.py:98 | An inserted entry goes after the existing entries with the same score. |
| Ranking.ItemsOfPermutation | datasci_tool/vector_store.py:99 | Taking the documents out of a permuted scored list gives a permutation of the documents. |
| Ranking.SortInPlace | datasci_tool/vector_store.py:98 | Sorting the array in place leaves exactly the stable descending order of its old contents. |
| Ranking.InsertInPlace | datasci_tool/vector_store.py:98 | One insertion step places `a[i]` into the sorted prefix and leaves the rest of the array alone. |
| Ranking.FindSlot | datasci_tool/vector_store.py:98 | Scanning left from `i`, the slot found is either 0 or just after an entry scoring at least as high as x, and every entry the scan passed, from the slot up to `i`, scores lower than x. |
| Ranking.ShiftRight | datasci_tool/vector_store.py:98 | The block between the slot and the entry moves one place right; everything else is unchanged. |
| Ranking.SliceTo | datasci_tool/vector_store.py:99 | Python's `s[:k]`: a prefix of length min(k, \|s\|) for k >= 0, and all but the last -k entries for k < 0. |
| VectorStore.DecodeEncodedDocument | datasci_tool/vector_store.py:45-70 | Reading back the object `_save` writes for a document gives the same document. |
| VectorStore.DecodeEncodedDocuments | datasci_tool/vector_store.py:45-70 | Reading back a written list of documents gives the same documents, in order. |
| VectorStore.PayloadRoundTrip | datasci_tool/vector_store.py:42-70 | Loading what `_save` wrote gives back exactly the documents saved, in order. |
| VectorStore.DecodeFailurePersists | datasci_tool/vector_store.py:46-54 | Once an item fails to load, the whole load fails with that item's error, whatever follows it. |
| VectorStore.MetadataDefaultsToEmpty | datasci_tool/vector_store.py:51 | Any entry without "metadata" that loads has an empty metadata map. |
| VectorStore.EntryWithoutMetadataLoads | datasci_tool/vector_store.py:46-54 | An entry with document_id, text and embedding and no "metadata" loads, with an empty metadata map. |
| VectorStore.LoadKeepsAnyDimension | datasci_tool/vector_store.py:42-55 | A document with a 1-element embedding loads unchanged into a store of dimension 3. In general, `DecodePayload` takes no dimension, and `Open`'s success condition has no dimension condition. |
| VectorStore.CheckDimensions | datasci_tool/vector_store.py:79-84 | There is an error iff some embedding has the wrong length, and the error names the first such document, its length and the expected one. |
| VectorStore.RankedIsPermutation | datasci_tool/vector_store.py:95-99 | The ranking holds every stored document exactly as often as the store does. |
| VectorStore.SortedScoresAreKeys | datasci_tool/vector_store.py:95-98 | After sorting, every entry still carries its own document's similarity. |
| VectorStore.RescoreRanked | datasci_tool/vector_store.py:95-99 | Rescoring the ranked documents gives back the sorted scored list. |
| VectorStore.RankedIsDescending | datasci_tool/vector_store.py:95-99 | Ranked documents are ordered by non-increasing similarity to the probe. |
| VectorStore.TiedIsWithScore | datasci_tool/vector_store.py:95-99 | The documents with a given similarity are those of the scored entries with that score. |
| VectorStore.RankedKeepsTieOrder | datasci_tool/vector_store.py:98 | Documents equally similar to the probe keep their store order. |
| VectorStore.QueryReturnsBest | datasci_tool/vector_store.py:88-99 | A successful query returns a prefix of the ranking, of the length the top_k slice gives, and no omitted document is more similar than a returned one. |
| VectorStore.QueryReturnsStored | datasci_tool/vector_store.py:95-99 | Every returned document is a stored one, returned no more often than it is stored. |
| VectorStore.ExactMatchRanksFirst | datasci_tool/vector_store.py:88-99 | With [1,0,0], [0,1,0] and [0.8,0.2,0] stored, probe [1,0,0] and top_k 2 return the exact match, then the partial overlap. |
| VectorStore.CloserDocumentRanksFirst | datasci_tool/vector_store.py:88-99 | With [1,0,0] and [0,1,0] stored, probe [0.8,0.2,0] returns the first document, then the second. |
| VectorStore.LocalVectorStore.Init | datasci_tool/vector_store.py:31-35 | A new store has its path and dimension, no documents, and sees the file as it is. |
| VectorStore.LocalVectorStore.Load | datasci_tool/vector_store.py:42-55 | Loading replaces the documents by those the file decodes to. If the file cannot be read, the error is reported and the documents are unchanged. |
| VectorStore.LocalVectorStore.Save | datasci_tool/vector_store.py:57-70 | The file afterwards encodes exactly the in-memory documents and loads back to them. |
| VectorStore.LocalVectorStore.Add | datasci_tool/vector_store.py:75-86 | An empty batch or a wrong-dimension batch changes neither memory nor file; the error is the first bad document. A valid batch is appended in order and the file is rewritten. The file-mirrors-memory and all-right-dimension invariants are kept. |
| VectorStore.LocalVectorStore.Query | datasci_tool/vector_store.py:88-99 | An empty store gives []. A probe of the wrong length is an error. Otherwise the result is the top_k slice of the stable descending ranking. |
| VectorStore.Open | datasci_tool/vector_store.py:31-37 | An absent file opens empty. A readable file opens with its documents, of any dimension. An unreadable file is an error. |
| ResearchAgent.KindOf | datasci_tool/research_agent.py:78-80 | A type name denotes the delta event iff it is "response.output_text.delta", and the completion event iff it is "response.completed". Any other name is kept as an other event. |
| ResearchAgent.CollectDeltasAppend | datasci_tool/research_agent.py:76-83 | Before a completion event, the collected text of a stream is the concatenation of its parts'. |
| ResearchAgent.CompletionEndsStream | datasci_tool/research_agent.py:80-81 | Nothing after the first completion event contributes to the text. |
| ResearchAgent.OtherEventsIgnored | datasci_tool/research_agent.py:77-81 | Events that are neither text deltas nor completion contribute nothing. |
| ResearchAgent.StripStart | datasci_tool/research_agent.py:83 | Removes exactly the leading whitespace: the result is a suffix, everything dropped is whitespace, and it does not start with whitespace. |
| ResearchAgent.StripEnd | datasci_tool/research_agent.py:83 | Removes exactly the trailing whitespace: the result is a prefix, everything dropped is whitespace, and it does not end with whitespace. |
| ResearchAgent.StripIsTrim | datasci_tool/research_agent.py:83 | The stripped text is a contiguous slice of the input with only whitespace outside it. |
| ResearchAgent.StripHasNoSpaceAtEnds | datasci_tool/research_agent.py:83 | The stripped text neither starts nor ends with whitespace. |
| ResearchAgent.StripIdempotent | datasci_tool/research_agent.py:83 | Stripping twice is stripping once. |
| ResearchAgent.AccumulateText | datasci_tool/research_agent.py:76-83 | The loop's text is the deltas before the first completion event, concatenated and stripped. |
| ResearchAgent.ParseItemsSucceeds | datasci_tool/research_agent.py:94-107 | Parsing succeeds iff every item makes a snippet, and then gives one snippet per item, in order. |
| ResearchAgent.ParseItemsFailsFirst | datasci_tool/research_agent.py:95-106 | A failed parse reports the error of the first item that does not make a snippet. |
| ResearchAgent.ParseFailurePersists | datasci_tool/research_agent.py:95-106 | Once a prefix fails to parse, the whole list fails with that error. |
| ResearchAgent.Excerpt | datasci_tool/research_agent.py:93 | The error message keeps exactly the first min(1000, \|text\|) characters. |
| ResearchAgent.ParseJsonArray | datasci_tool/research_agent.py:87-107 | The parsing loop returns exactly what `Parse` specifies: the JSON error, the iteration error, the first bad item's error, or every snippet in order. |
| ResearchAgent.Research | datasci_tool/research_agent.py:76-85 | `research` parses the stripped, collected stream text as it was decoded. |
| ResearchAgent.ParseSnippetObjects | datasci_tool/research_agent.py:94-107 | An array of snippet objects with all four fields parses back to exactly those snippets. |
| ResearchAgent.SnippetDefaults | datasci_tool/research_agent.py:99-102 | For any object with a string title that parses: the title is kept, an absent url or summary becomes "", a "content" field wins over "body", and with neither the content is "". |
| ResearchAgent.TitleOnlyItem | datasci_tool/research_agent.py:99-102 | Only the title is required; url, content and summary default to "". |
| ResearchAgent.BodyStandsInForContent | datasci_tool/research_agent.py:101 | Without "content", the "body" field supplies the content. |
| ResearchAgent.MissingTitleReported | datasci_tool/research_agent.py:99-106 | An item without a title, after items that parse, fails the parse with that item's position and the item itself. |
| Pipeline.BulletShape | datasci_tool/pipeline.py:99 | A bullet is the title, ": ", then the summary, or the content cut to at most 200 characters when there is no summary. |
| Pipeline.SplitJoinLines | datasci_tool/pipeline.py:104 | Splitting a non-empty list of newline-joined lines that hold no newline gives back those lines. (An empty list joins to "", which splits to one empty line.) |
| Pipeline.EmptySummaryIgnoresGenerator | datasci_tool/pipeline.py:101-102 | With no snippets the summary is the fixed message, whether or not a generator is configured. |
| Pipeline.SummaryLinesAreBullets | datasci_tool/pipeline.py:98-104 | With at least one snippet, no generator and no newline in any bullet, the summary's lines are the bullets, in order. (A snippet whose summary is empty and whose content holds a newline gives a bullet that spans several lines.) |
| Pipeline.GeneratorAnswerIsSummary | datasci_tool/pipeline.py:105 | With a generator and findings, the summary is the generator's answer for the query and the bullets. |
| Pipeline.DocumentKeepsSnippet | datasci_tool/pipeline.py:71-82 | A stored document keeps title, url, content and summary, so the snippet can be read back from it. Its id is the url, or the title when the url is empty. Its embedding is the paired one. Its metadata has exactly the keys title, url and summary. |
| Pipeline.BuildDocuments | datasci_tool/pipeline.py:69-83 | The pairing loop gives one document per snippet and embedding, or the strict-zip length error. |
| Pipeline.MismatchStoresNothing | datasci_tool/pipeline.py:68-84 | When the embedding count differs from the snippet count, the run fails before anything is stored. |
| Pipeline.RunStoresEverySnippet | datasci_tool/pipeline.py:69-84 | After a successful run the store holds its old documents followed by one document per snippet, in order. Each new document carries its snippet, its embedding and its id, has the store's dimension, and has metadata with exactly the keys title, url and summary. |
| Pipeline.RunOutputShape | datasci_tool/pipeline.py:85-95 | A successful run echoes the query and the snippets. Its summary is `_build_summary`'s. Its similar documents are the store's answer, after the add, for the query embedding with the configured top_k. |
| Pipeline.NoFindingsStillQueries | datasci_tool/pipeline.py:67-102 | With no findings nothing is stored, but the query is still looked up in the existing store, and the summary is the fixed message. |
| Pipeline.TwoFindingsEndToEnd | tests/test_pipeline.py:10-59 | The repository's end-to-end scenario: both findings are stored, both are returned with A above B, and the summary is the generator's answer. |
| Pipeline.ResearchPipeline.constructor | datasci_tool/pipeline.py:31-63 | The pipeline is wired to its store, top_k, research agent, embedder and optional summary generator. |
| Pipeline.ResearchPipeline.Run | datasci_tool/pipeline.py:65-95 | `run` returns what `RunOutcome` specifies and leaves the store with what `StoredAfter` specifies. The file is rewritten only when documents were added, and the store keeps mirroring its file. |

## Left out

- File I/O is not modelled. The store's file is its `disk` field, which holds
  the decoded JSON value. Creating the directory, checking that the file
  exists, and encoding or decoding JSON text are not modelled. Partial writes
  and concurrent writers are not modelled.
- `json.loads` is a parameter (`loads`). It yields `None` where Python raises
  `JSONDecodeError`.
- Similarity.CosineKey: ranks by cos·|cos| in exact real arithmetic instead of
  the floating-point cosine, because Dafny has no square root.
  - The ranking is the same for all vectors, zero-norm ones included. The
    score is the signed square of the cosine (`Similarity.CosineKeyOfCosine`).
    Two cosines compare as their scores do, in both directions
    (`Similarity.CosineOrderIsKeyOrder`).
  - The zero-norm rule is the same.
  - Rounding, NaN and infinities are not modelled.
- VectorStore.DecodeDocument: loading is stricter than Python. It rejects a
  `document_id` or `text` that is not a string, `metadata` that is not an
  object, and an `embedding` that is not an array of numbers. Python stores
  such values as they are, or iterates strings and objects into lists.
- VectorStore.DocumentItems: for a non-empty string or object under
  "documents", the model reports `NotAnObject`, while Python fails later with
  a `TypeError` on its first item.
- ResearchAgent.SnippetOf: parsing is stricter than Python. A field that is
  not a string is rejected with `WrongType`, where Python would copy it into
  the snippet. A non-object item is reported as `NotAnObject(index)`, where
  Python raises `TypeError`.
- ResearchAgent.Iterate: decoded strings and objects are iterated only as far
  as the item loop can tell. A non-empty one fails at item 0.
- The calls to the remote service are not modelled: creating the agent and
  the session, the prompt text, opening and closing the stream, the
  embeddings endpoint, and the summary endpoint. The research, embedding and
  summary steps are function-valued fields of the pipeline. Network errors
  and exceptions raised inside those services are not modelled.
- `SummaryGenerator.summarize` is only a parameter. Its prompt, the "- "
  prefix it adds to bullets, and its model call are not part of this model.
- `EmbeddingService.embed` is modelled only by its short-circuit for an
  empty input (`Pipeline.EmbedTexts`).
- Choosing the generator from `config.summary_model` is not modelled. The
  pipeline constructor does not build its collaborators. The default
  persist path and the configuration defaults (dimension 3072, top_k 5) are
  not modelled; dimension and top_k are parameters.
- `__len__` is `VectorStore.LocalVectorStore.Len`, which has no contract of
  its own. The `documents` property is the `documents` field. The model does
  not copy it into a tuple.
- The command-line script `scripts/run_pipeline.py` is not part of this
  model.
