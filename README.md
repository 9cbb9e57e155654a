# docubot-slack in Dafny

A model of the core of docubot-slack, a Slack bot that answers questions from PDF documents by retrieval-augmented generation. The model covers three parts of the bot:

- **Ingestion (`pdf_processor.py`).** `process_pdf_files` reads the `./pdfs` folder into one document per PDF with text. `chunk_documents` cuts every document into chunks with the splitter, keeping the non-blank ones. `store_documents` turns every chunk into a record and upserts the records into the vector index in batches of 100. A record holds an id, an embedding and metadata; the id is `source_chunkid_hash8`.
- **Message handling (`slack_app.py`).** The handler rejects empty messages and runs two commands, `/reload_pdfs` and `/index_stats`. It answers any other message by embedding it, querying the index for 5 matches, building a context from the matches, and prompting the LLM with it. `_say_llm_response` renders the answer as Block Kit blocks: the answer, an optional context preview, the sorted sources, and a footer.
- **Helpers (`utils.py`).** `create_document_hash` is the md5 digest. `_safe_get_score_and_metadata` never raises: it turns a match of any shape into a pair of a score and a metadata map.

Files:

- `wrappers.dfy`: the `Option` and `Result` datatypes.
- `pystr.dfy`: the Python `str` operations the bot relies on, with Python's meaning. These are `isspace`/`strip`, `lower`, `startswith`/`endswith`, `join`, `str(int)`, code-point ordering and `sorted`.
- `utils.dfy`: `utils.py`.
- `services.dfy`: the embedder, the vector index and the LLM chain, as function values. A call that can raise returns its outcome instead: `index.query` and `describe_index_stats` give a `Result` whose error is the exception's text, `upsert` gives that text or None, and the LLM gives None. `embed_query` cannot fail in the model.
- `pdf_processor.dfy`: `pdf_processor.py`.
- `slack_app.dfy`: `slack_app.py`. The `say` callback is `ReplyLog`, a class holding the sequence of replies sent so far; every `say` appends one reply.

Code that loops is modelled by methods with loops: the three ingestion functions and the context and sources loops of the handler. Each of these methods is proved equal to a recursive specification function, and the lemmas are stated about those functions. The code that only calls `say` has no loop: `_say_llm_response` is the method `SayLlmResponse`, specified by the non-recursive `LlmResponseReply`, and the handler is `MessageHandler`, specified by the non-recursive `HandlerReplies` (built from `ReloadReplies`, `StatsReply` and `QueryReplies`), which lists everything the handler says for a message.

## Model

| member | source | states |
|---|---|---|
| Utils.CreateDocumentHash | utils.py:4-5 | the digest is 32 lower-case hexadecimal characters and depends on the content alone |
| Utils.SafeGetScoreAndMetadata | utils.py:7-32 | an attribute wins over a dict key; a score present is converted by `float`; a score that is missing, None, not convertible or whose lookup raised becomes 0.0; metadata comes from the attribute or key, and a falsy or missing value gives `{}`; metadata is `{}` when the score lookup raised |
| Utils.OrZeroKeepsFloat | utils.py:20-27 | the `score or 0` fallback in the except branch never changes the final float |
| Services.MatchesOf | slack_app.py:114 | a dict response without "matches" yields no matches |
| PyStr.StripEmptyIffBlank | pdf_processor.py:41 | `not s.strip()` holds exactly when every character is whitespace |
| PyStr.TrimStart | slack_app.py:130 | `lstrip` leaves a suffix that begins with a non-space, and every removed character is whitespace |
| PyStr.TrimEnd | slack_app.py:130 | `rstrip` leaves a prefix that ends with a non-space, and every removed character is whitespace |
| PyStr.Lower | slack_app.py:82 | `lower` keeps the length and maps each character separately |
| PyStr.JoinEnds | slack_app.py:125 | a join of parts begins with the first part and ends with the last |
| PyStr.JoinSnoc | slack_app.py:125 | joining one more part appends the separator and that part |
| PyStr.NatToString | slack_app.py:39 | `str(n)` is at least one decimal digit, a single digit exactly for n < 10, and ends with the last digit of n |
| PyStr.NatToStringInjective | slack_app.py:39 | different counts are rendered differently |
| PyStr.NatToStringValue | slack_app.py:39 | `str(n)` denotes n as a decimal numeral (`DigitsValue`) and has no leading zero |
| PyStr.LessIrreflexive | slack_app.py:61 | no string sorts before itself |
| PyStr.LessTransitive | slack_app.py:61 | string order is transitive |
| PyStr.LessTotal | slack_app.py:61 | any two different strings are ordered one way or the other |
| PyStr.Insert | slack_app.py:61 | insertion adds exactly one occurrence of the element |
| PyStr.Sort | slack_app.py:61 | `sorted` returns a permutation of its input |
| PyStr.InsertSorted | slack_app.py:61 | inserting into a sorted list keeps it sorted |
| PyStr.SortSorted | slack_app.py:61 | `sorted` returns a sorted list |
| PyStr.SortDistinct | slack_app.py:61 | sorting a list without repeats gives a strictly ascending list with the same elements |
| PyStr.StrictlySortedUnique | slack_app.py:61 | two strictly ascending lists with the same elements are equal |
| PyStr.Listing | slack_app.py:136-143 | a set listed in ascending order: strictly ascending, with exactly the set's elements |
| PyStr.SortOfAnyListing | slack_app.py:143 | `sorted(list(s))` is the same whatever order `list` produced |
| PdfProcessor.PdfFiles | pdf_processor.py:32 | an entry is kept exactly when its lower-cased name ends with `.pdf`, and the result is no longer than the listing |
| PdfProcessor.PdfFilesSnoc | pdf_processor.py:32 | one more listing entry is appended to the PDF files exactly when its name ends with `.pdf` |
| PdfProcessor.PdfFilesAppend | pdf_processor.py:32 | filtering a listing in two pieces gives the two filtered pieces in order, so the PDF files keep their listing order and multiplicity |
| PdfProcessor.JoinPathShape | pdf_processor.py:38 | `os.path.join` ends with the name; an absolute name replaces the directory; otherwise the path is the directory, then one "/" unless the directory is empty or already ends with "/", then the name |
| PdfProcessor.ProcessPdfFiles | pdf_processor.py:25-54 | the loop builds `ProcessedDocuments`: nothing for a missing folder or a folder without PDFs; otherwise one document per PDF whose text is not blank |
| PdfProcessor.LoadPdfFiles | pdf_processor.py:37-53 | the loop over the PDF files builds `LoadDocuments`: one document per file with non-blank text, in listing order |
| PdfProcessor.LoadDocumentsSound | pdf_processor.py:37-53 | every loaded document belongs to a listed file whose text is not blank |
| PdfProcessor.LoadDocumentsComplete | pdf_processor.py:37-53 | every listed file whose text is not blank yields its document |
| PdfProcessor.ProcessedDocumentsExactly | pdf_processor.py:25-54 | every processed document has non-blank content and a text `source` naming a PDF entry of the listing; every such entry with non-blank text is processed |
| PdfProcessor.KeepChunks | pdf_processor.py:63-66 | the inner loop keeps exactly the non-blank pieces of one document, tagged with their position and the piece count |
| PdfProcessor.ChunkDocuments | pdf_processor.py:56-67 | the loops build `Chunks`, and no documents give no chunks |
| PdfProcessor.ChunkAtMetadata | pdf_processor.py:66 | a chunk's metadata has exactly its parent's keys plus `chunk_id` and `total_chunks`; the parent's other values are kept and the two new keys record the piece's position and the piece count |
| PdfProcessor.OriginsNameText | pdf_processor.py:62-66 | every chunk comes from a non-blank piece of some document |
| PdfProcessor.OriginsOrdered | pdf_processor.py:62-66 | chunks come in document order, then piece order |
| PdfProcessor.OriginsComplete | pdf_processor.py:62-66 | every non-blank piece of every document becomes a chunk |
| PdfProcessor.KeptChunksFollowOrigins | pdf_processor.py:64-66 | chunk k of one document is built from the piece its origin names |
| PdfProcessor.ChunksFollowOrigins | pdf_processor.py:62-66 | chunk k of the result is built from the piece its origin names |
| PdfProcessor.ChunkDocumentsProperties | pdf_processor.py:56-67 | every chunk is a non-blank piece of its document whose metadata has exactly the parent's keys plus `chunk_id` and `total_chunks`, with the parent's other values kept; chunks are ordered; no non-blank piece is lost |
| PdfProcessor.ChunksNonBlank | pdf_processor.py:65 | no chunk is blank |
| PdfProcessor.ChunkIdsMayHaveGaps | pdf_processor.py:64-66 | with a blank piece in the middle, the kept chunk ids are 0 and 2 and `total_chunks` is 3 |
| PdfProcessor.ContentPreview | pdf_processor.py:82 | the preview is the content when it has at most 200 characters, else its first 200 characters followed by "..." |
| PdfProcessor.ChunkIdTextShape | pdf_processor.py:81 | `str(metadata.get("chunk_id", 0))` is "0" without a chunk id; for a non-negative integer chunk id it is all digits and denotes the id; for a negative one it is "-" followed by digits denoting the absolute value |
| PdfProcessor.VectorIdShape | pdf_processor.py:78 | the id is the source, "_", the chunk id, "_" and the first 8 digest characters, so it has their lengths plus 10 |
| PdfProcessor.VectorIdInjective | pdf_processor.py:78 | two ids are equal exactly when the sources, the chunk numbers and the first 8 digest characters are equal, even for sources containing "_": chunks of different files never share an id |
| PdfProcessor.MakeRecord | pdf_processor.py:75-84 | a record has the id, the embedding of the content, and metadata with exactly source, chunk id and preview |
| PdfProcessor.Vectors | pdf_processor.py:74-84 | there is one record per document, in document order |
| PdfProcessor.BuildVectors | pdf_processor.py:74-84 | the first loop builds `Vectors` |
| PdfProcessor.BatchesCover | pdf_processor.py:86-88 | the batches, concatenated, are the records |
| PdfProcessor.BatchesShape | pdf_processor.py:86-88 | every batch has 1 to 100 records, and all but the last have exactly 100 |
| PdfProcessor.BatchCount | pdf_processor.py:86-90 | there are ceil(n / 100) batches |
| PdfProcessor.Upload | pdf_processor.py:87-89 | batches are upserted in order up to the first that raises; batches already upserted stay committed; with no failure, all batches are committed |
| PdfProcessor.UploadStep | pdf_processor.py:87-89 | uploading from position i upserts the batch at i first, then the rest unless that batch failed |
| PdfProcessor.UploadAdvance | pdf_processor.py:87-89 | one pass of the batch loop either stops with the batches committed so far and the error, or commits the batch and moves on by 100 |
| PdfProcessor.UpsertInBatches | pdf_processor.py:86-89 | the batch loop computes `Upload` over the batches of 100 |
| PdfProcessor.StoreDocuments | pdf_processor.py:69-92 | `store_documents` does nothing without an index, an embedder or documents; otherwise it uploads the records in batches of 100 |
| PdfProcessor.ReloadedChunksHaveSource | pdf_processor.py:42-84 | chunks of processed documents always carry the text `source` that `store_documents` indexes |
| SlackApp.ReplyLog.Say | slack_app.py:78 | `say` appends one reply and changes nothing else |
| SlackApp.Truncated | slack_app.py:53-55 | a preview of at most 800 characters is kept, and a longer one becomes its first 800 characters plus the truncation note |
| SlackApp.LlmResponseLayout | slack_app.py:44-69 | the answer and a divider come first; exactly when the preview is shown, the third block is the context section holding the preview truncated to 800 characters (`Truncated`) and the fourth a divider; the sources line and the footer come last |
| SlackApp.SayLlmResponse | slack_app.py:44-69 | `_say_llm_response` sends exactly the reply `LlmResponseReply` built with the sources sorted |
| SlackApp.Parts | slack_app.py:120-124 | there is one part per match, the i-th numbered i+1 |
| SlackApp.PartStartsWithDoc | slack_app.py:124 | every part begins with "D" |
| SlackApp.ContextShownIffMatches | slack_app.py:51-143 | a non-empty match list gives a context that is neither blank nor the sentinel, so the preview is shown exactly when there are matches |
| SlackApp.BuildContext | slack_app.py:117-125 | the loop builds `ContextOf`: the sentinel without matches, else the parts joined by blank lines |
| SlackApp.LlmAnswer | slack_app.py:129-133 | a chain that raises gives exactly the apology; a successful one gives its output stripped, which is empty exactly when the output is blank and otherwise begins and ends with a non-space |
| SlackApp.SourceSet | slack_app.py:136-140 | the set holds exactly the sources of the matches, with "Unknown" for a match without a source |
| SlackApp.GatherSources | slack_app.py:136-140 | the loop builds `SourceSet` |
| SlackApp.ListOf | slack_app.py:143 | `list(sources)` lists every element of the set exactly once |
| SlackApp.ReloadReplies | slack_app.py:82-93 | `/reload_pdfs` says two things, the progress notice first; the second is the no-documents reply exactly when no document was processed, and the handler error exactly when documents were processed and an upsert raised |
| SlackApp.StatsReply | slack_app.py:95-104 | without an index the reply is the unavailability notice; a raising `describe_index_stats` gives the error reply with its text; available stats give exactly the stats reply showing the rendered stats, the only reply with 3 blocks |
| SlackApp.QueryReplies | slack_app.py:111-147 | a question with the setup in place gets exactly one reply, which is the LLM response exactly when `index.query` did not raise; a raising query gives exactly the handler error with the exception's text |
| SlackApp.HandlerReplies | slack_app.py:71-147 | every message gets one or two replies; the branches are tested in source order: blank, `/reload_pdfs`, `/index_stats`, missing setup, query |
| SlackApp.Reload | slack_app.py:82-93 | `/reload_pdfs` sends a progress reply, then either the no-documents reply, the handler error of a failed upsert, or the chunk count |
| SlackApp.AnswerQuery | slack_app.py:111-143 | the query flow sends `QueryReplies` |
| SlackApp.MessageHandler | slack_app.py:71-147 | the handler sends exactly `HandlerReplies` |
| SlackApp.EveryMessageIsAnswered | slack_app.py:71-147 | every message gets one reply, or two for `/reload_pdfs` |
| SlackApp.BlankMessageIsRejected | slack_app.py:77-79 | the only reply is the non-empty prompt exactly when the text is missing, empty or whitespace |
| SlackApp.CommandIsNotBlank | slack_app.py:77-82 | a message that starts with a command is never blank |
| SlackApp.CommandsIgnoreCaseAndRest | slack_app.py:82-95 | a message whose lower-cased form starts with a command gets the bare command's replies, whatever follows |
| SlackApp.LowerCommands | slack_app.py:82-95 | the upper-case spellings of the commands lower-case to the commands |
| SlackApp.UpperCaseCommands | slack_app.py:82-95 | `/RELOAD_PDFS` and `/Index_Stats` are the commands |
| SlackApp.StatsWithoutIndex | slack_app.py:95-104 | `/index_stats` without an index says the index is not available |
| SlackApp.RagUnavailableWithoutSetup | slack_app.py:107-109 | a question gets the unavailability notice exactly when the embedder or the index is missing |
| SlackApp.ListingEmpty | slack_app.py:60-64 | an empty source set lists nothing |
| SlackApp.QueryAnswer | slack_app.py:111-143 | a successful search gives one reply; it holds the stripped LLM answer or the apology, 6 blocks with matches and 4 without, with matches a context section showing the matches' context truncated to 800 characters, and the sorted distinct sources |
| SlackApp.BareLlmResponse | slack_app.py:44-69 | without context and sources, the reply is the answer, a divider, "None" and the footer |
| SlackApp.NoMatchesAnswer | slack_app.py:117-143 | without matches, the LLM is prompted with the sentinel context, and the reply has no context section and lists no source |
| SlackApp.ReloadWithoutDocuments | slack_app.py:84-87 | a reload without a folder or without PDFs says there are no documents, whatever the index, embedder or splitter |
| SlackApp.ReloadProgressShowsCount | slack_app.py:37-42 | the progress reply's text shows the uploaded count as a decimal numeral denoting it, between the fixed prefix and suffix |
| SlackApp.ReloadReportsChunkCount | slack_app.py:88-92 | a reload reports the number of chunks even when nothing was stored; a failed upsert is reported as a handler error |
| SlackApp.FileSharedReplies | slack_app.py:149-157 | a shared file gets one reply exactly when its mimetype is `application/pdf` |
| SlackApp.HandleFileUpload | slack_app.py:149-157 | the file handler sends `FileSharedReplies` |

## Left out

- I/O is not modelled, and its results are parameters instead:
  - the folder listing is `listing` (None when `./pdfs` does not exist);
  - text extraction is `extractText`, covering PyPDF2, page joining and extraction errors, which give "";
  - `datetime.now().isoformat()` is a clock indexed by file position.
- `os.makedirs`, every `print` and `logger.error` are not modelled.
- The splitter is not modelled. `RecursiveCharacterTextSplitter` with its `chunk_size`/`chunk_overlap` configuration is an opaque function from text to pieces.
- The embedder, md5, the vector index and the LLM chain are not modelled inside. They are opaque functions.
  - `create_document_hash` is md5 of the content; only its shape, 32 hex digits, is stated.
  - The chain's conversation memory is not modelled: the LLM is a function of the prompt alone.
- `embed_query` is total in the model. An embedding error, which would reach the handler's outer `except`, is not modelled.
- `describe_index_stats` is given already rendered as text. The `json.dumps`/`str` formatting of `_say_index_stats` is not modelled.
- Score rendering `{score:.3f}` is a parameter `formatScore`, since floats are modelled as reals.
- `str.lower()` is modelled for ASCII letters only. No other character can lower-case into the ASCII command prefixes, so command detection and the `.pdf` test are unaffected except for non-ASCII names.
- Metadata values stored in the index are strings. A non-string `source` in a query match, which would make `sorted` raise, is not modelled.
- The `try` around the query flow is modelled only for the failures the model can express: `index.query` and a failing `upsert` during a reload.
- The Slack app wiring, the Socket Mode handler and `main.py` are not part of this model.
- `create_slack_app`'s environment lookups are not part of this model.
- PdfProcessor.StoreDocuments: requires every document to carry a text `source`. This is stronger than what `store_documents` needs: the Python code returns before reading `source` when the index, the embedder or the documents are missing, and a non-string `source` would be formatted by the f-string and stored without raising; only a missing `source` raises KeyError. The precondition is met at the only call site, the reload, as `ReloadedChunksHaveSource` shows; a store of documents without a text `source` is not modelled.
- PdfProcessor.ChunkDocuments: the chunk numbering follows the code, not the intent of a dense 0..n-1 index. `chunk_id` is the piece's position in the splitter output and `total_chunks` the unfiltered piece count, so ids skip blank pieces (`ChunkIdsMayHaveGaps`).
