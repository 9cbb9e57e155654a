/**
 * slack_app.py: the message handler of the Slack bot. A message is either
 * empty, the command `/reload_pdfs` (re-ingest the PDF folder), the command
 * `/index_stats`, or a question answered from the vector index and the LLM.
 * Every reply goes through `say`, modelled as an append-only log of replies.
 */
module SlackApp {
  import opened Wrappers
  import opened PyStr
  import opened Utils
  import opened Services
  import opened PdfProcessor

  // ---------------------------------------------------------------------------
  // Replies
  // ---------------------------------------------------------------------------

  /** A Block Kit block: a mrkdwn section, a divider, or a context line. */
  datatype Block = Section(text: string) | Divider | Context(text: string)

  /** One call of `say`: its blocks and its fallback text. `say(text)` has no blocks. */
  datatype Reply = Reply(blocks: seq<Block>, text: string)

  /** The `say` callback: every reply the bot has sent, oldest first. */
  class ReplyLog {
    var said: seq<Reply>

    constructor()
      ensures said == []
    {
      said := [];
    }

    method Say(r: Reply)
      modifies this
      ensures said == old(said) + [r]
    {
      said := said + [r];
    }
  }

  const EmptyMessageReply := Reply([], "Please send a non-empty message.")

  const ReloadingReply := Reply([Section("🔄 *Reloading PDF knowledge base...*")], "Reloading")

  /** `_say_no_docs`. */
  const NoDocsReply := Reply(
    [Section("*No relevant documents found.* :mag: \nTry adding PDFs to `./pdfs` and run `/reload_pdfs`."),
     Context("Tip: PDFs with selectable text work best (not scanned images).")],
    "No documents found")

  const UploadedPrefix := "🔄 *PDF knowledge base reloaded.*\nUploaded *"
  const UploadedSuffix := "* document chunks to Pinecone."

  /** `_say_reload_progress(say, uploaded_count)`. */
  function ReloadProgressReply(uploadedCount: nat): Reply {
    Reply([Section(UploadedPrefix + NatToString(uploadedCount) + UploadedSuffix),
           Context("Use `/index_stats` to inspect the index.")],
          "Reload complete")
  }

  /** The progress reply shows the count as a decimal numeral that denotes it. */
  lemma ReloadProgressShowsCount(uploadedCount: nat)
    ensures var t := ReloadProgressReply(uploadedCount).blocks[0].text;
      && StartsWith(t, UploadedPrefix) && EndsWith(t, UploadedSuffix)
      && |t| > |UploadedPrefix| + |UploadedSuffix|
      && var shown := t[|UploadedPrefix|..|t| - |UploadedSuffix|];
         && (forall i | 0 <= i < |shown| :: IsDigit(shown[i]))
         && DigitsValue(shown) == uploadedCount
  {
    var digits := NatToString(uploadedCount);
    NatToStringValue(uploadedCount);
    var t := ReloadProgressReply(uploadedCount).blocks[0].text;
    assert t == UploadedPrefix + digits + UploadedSuffix;
    assert t[|UploadedPrefix|..|t| - |UploadedSuffix|] == digits;
  }

  /** `_say_index_stats(say, stats)`, with the stats already rendered as text. */
  function IndexStatsReply(pretty: string): Reply {
    Reply([Section("*📊 Pinecone Index Stats*"), Divider, Section("```" + pretty + "```")], "Index stats")
  }

  function IndexErrorReply(e: string): Reply {
    Reply([Section("❌ Error getting index stats: `" + e + "`")], "Index error")
  }

  const IndexUnavailableReply := Reply([Section("❌ Pinecone index not available.")], "Index not available")

  const RagUnavailableReply := Reply(
    [Section("⚠️ RAG unavailable: embeddings or index not configured. Use `/reload_pdfs` after fixing setup.")],
    "RAG unavailable")

  /** The reply of the handler's outer `except`. */
  function HandlerErrorReply(e: string): Reply {
    Reply([Section("❌ Sorry, I encountered an error: `" + e + "`")], "Handler error")
  }

  const PdfDetectedReply := Reply(
    [Section("📎 PDF detected. Save it to `./pdfs` and run `/reload_pdfs` to ingest it.")], "PDF detected")

  // ---------------------------------------------------------------------------
  // _say_llm_response
  // ---------------------------------------------------------------------------

  /** The context text used when the index returned no match. */
  const NoDocumentsSentinel := "No relevant documents found."

  const ContextLimit: nat := 800
  const TruncationNote := "...\n\n*(context truncated)*"
  const AnswerHeading := "*🤖 Answer*\n"
  const ContextHeading := "*Context used:*\n```"
  const SourcesHeading := "📚 *Sources consulted:* "
  const Footer := "You can re-ingest docs with `/reload_pdfs`."

  /** The preview is shown only if given, not blank, and not the no-match sentinel. */
  predicate ShowsContext(contextPreview: Option<string>) {
    contextPreview.Some? && !IsBlank(contextPreview.value) && contextPreview.value != NoDocumentsSentinel
  }

  /** The shown preview: at most 800 characters of the context, then a truncation note. */
  function Truncated(c: string): (r: string)
    ensures |c| <= ContextLimit ==> r == c
    ensures |c| > ContextLimit ==>
              |r| == ContextLimit + |TruncationNote| && StartsWith(r, c[..ContextLimit]) && EndsWith(r, TruncationNote)
  {
    if |c| > ContextLimit then c[..ContextLimit] + TruncationNote else c
  }

  /** The sources line: the already sorted sources joined by commas, or "None". */
  function SourcesLine(sortedSources: seq<string>): string {
    SourcesHeading + (if |sortedSources| > 0 then Join(", ", sortedSources) else "None")
  }

  /** The reply `_say_llm_response` sends, given the sources in the order they are listed. */
  function LlmResponseReply(llmText: string, sortedSources: seq<string>, contextPreview: Option<string>): Reply {
    Reply([Section(AnswerHeading + llmText), Divider]
          + (if ShowsContext(contextPreview)
             then [Section(ContextHeading + Truncated(contextPreview.value) + "```"), Divider]
             else [])
          + [Context(SourcesLine(sortedSources)), Context(Footer)],
          "LLM response")
  }

  /**
   * The layout of an answer: the answer and a divider first, the context
   * section and its divider exactly when the preview is shown, then the sources
   * line and the footer.
   */
  lemma LlmResponseLayout(llmText: string, sortedSources: seq<string>, contextPreview: Option<string>)
    ensures var b := LlmResponseReply(llmText, sortedSources, contextPreview).blocks;
      && |b| == (if ShowsContext(contextPreview) then 6 else 4)
      && b[0] == Section(AnswerHeading + llmText) && b[1] == Divider
      && b[|b| - 2] == Context(SourcesLine(sortedSources)) && b[|b| - 1] == Context(Footer)
      && (ShowsContext(contextPreview) ==>
            b[2] == Section(ContextHeading + Truncated(contextPreview.value) + "```") && b[3] == Divider)
      && (ShowsContext(contextPreview) <==>
            exists k | 0 <= k < |b| :: b[k].Section? && StartsWith(b[k].text, ContextHeading))
  {
    var b := LlmResponseReply(llmText, sortedSources, contextPreview).blocks;
    assert b[0].text[..|AnswerHeading|] == AnswerHeading;
    assert !StartsWith(b[0].text, ContextHeading) by {
      assert b[0].text[1] == AnswerHeading[1] != ContextHeading[1];
    }
    if ShowsContext(contextPreview) {
      assert StartsWith(b[2].text, ContextHeading);
    }
  }

  lemma AppendTwo<T>(a: seq<T>, x: T, y: T)
    ensures a + [x] + [y] == a + [x, y]
  {
  }

  /** `_say_llm_response(say, llm_text, sources, context_preview)`. */
  method SayLlmResponse(log: ReplyLog, llmText: string, sources: seq<string>, contextPreview: Option<string>)
    modifies log
    ensures log.said == old(log.said) + [LlmResponseReply(llmText, Sort(sources), contextPreview)]
  {
    var blocks := [Section(AnswerHeading + llmText), Divider];
    var shown := false;
    if contextPreview.Some? {
      StripEmptyIffBlank(contextPreview.value);
      shown := Strip(contextPreview.value) != [] && contextPreview.value != NoDocumentsSentinel;
    }
    assert shown == ShowsContext(contextPreview);
    if shown {
      var preview := contextPreview.value;
      if |preview| > ContextLimit {
        preview := preview[..ContextLimit] + TruncationNote;
      }
      assert preview == Truncated(contextPreview.value);
      blocks := blocks + [Section(ContextHeading + preview + "```"), Divider];
    }
    ghost var head := blocks;
    assert head == [Section(AnswerHeading + llmText), Divider]
                   + (if ShowsContext(contextPreview)
                      then [Section(ContextHeading + Truncated(contextPreview.value) + "```"), Divider]
                      else []);
    var sorted := Sort(sources);
    assert |sorted| == |multiset(sorted)| == |multiset(sources)| == |sources|;
    if |sources| > 0 {
      blocks := blocks + [Context(SourcesHeading + Join(", ", sorted))];
    } else {
      blocks := blocks + [Context(SourcesHeading + "None")];
    }
    assert blocks == head + [Context(SourcesLine(sorted))];
    AppendTwo(head, Context(SourcesLine(sorted)), Context(Footer));
    blocks := blocks + [Context(Footer)];
    log.Say(Reply(blocks, "LLM response"));
  }

  // ---------------------------------------------------------------------------
  // Context and sources of a query
  // ---------------------------------------------------------------------------

  /** `score:.3f`, the rendering of a float, as a collaborator. */
  type ScoreFormat = real -> string

  /** `meta.get(key, default)`. */
  function MetaGet(meta: Metadata, key: string, default: string): string {
    if key in meta then meta[key] else default
  }

  function SourceOf(m: MatchItem): string {
    MetaGet(SafeGetScoreAndMetadata(m).metadata, "source", "Unknown")
  }

  /** The context part for the `i`-th match (numbered from 1 in the text). */
  function Part(i: nat, m: MatchItem, formatScore: ScoreFormat): string {
    var sm := SafeGetScoreAndMetadata(m);
    "Doc " + NatToString(i + 1) + " — " + MetaGet(sm.metadata, "source", "Unknown")
      + " (score " + formatScore(sm.score) + ")\n" + MetaGet(sm.metadata, "content_preview", "")
  }

  /** One part per match, each numbered by its position. */
  function Parts(matches: seq<MatchItem>, formatScore: ScoreFormat): (r: seq<string>)
    ensures |r| == |matches|
    ensures forall i | 0 <= i < |matches| :: r[i] == Part(i, matches[i], formatScore)
  {
    if |matches| == 0 then []
    else Parts(matches[..|matches| - 1], formatScore)
           + [Part(|matches| - 1, matches[|matches| - 1], formatScore)]
  }

  /** The context handed to the LLM: the sentinel without matches, else the parts separated by blank lines. */
  function ContextOf(matches: seq<MatchItem>, formatScore: ScoreFormat): string {
    if |matches| == 0 then NoDocumentsSentinel else Join("\n\n", Parts(matches, formatScore))
  }

  /** Every part begins with the "D" of "Doc". */
  lemma PartStartsWithDoc(i: nat, m: MatchItem, formatScore: ScoreFormat)
    ensures |Part(i, m, formatScore)| > 0 && Part(i, m, formatScore)[0] == 'D'
  {
  }

  /**
   * The context of a non-empty match list starts with its first part and is
   * therefore neither blank nor the sentinel; so a context preview is shown
   * exactly when the query returned matches.
   */
  lemma ContextShownIffMatches(matches: seq<MatchItem>, formatScore: ScoreFormat)
    ensures |matches| > 0 ==> StartsWith(ContextOf(matches, formatScore), Part(0, matches[0], formatScore))
    ensures ShowsContext(if |matches| > 0 then Some(ContextOf(matches, formatScore)) else None) <==> |matches| > 0
  {
    if |matches| > 0 {
      var c := ContextOf(matches, formatScore);
      var p := Part(0, matches[0], formatScore);
      PartStartsWithDoc(0, matches[0], formatScore);
      JoinEnds("\n\n", Parts(matches, formatScore));
      assert StartsWith(c, p);
      assert c[0] == 'D' by {
        assert c[..|p|] == p;
      }
      assert !IsSpace(c[0]);
      assert c[0] != NoDocumentsSentinel[0];
    }
  }

  /** `"\n\n".join(parts)` built part by part, as the handler's loop does. */
  method BuildContext(matches: seq<MatchItem>, formatScore: ScoreFormat) returns (context: string)
    ensures context == ContextOf(matches, formatScore)
  {
    if |matches| == 0 {
      return NoDocumentsSentinel;
    }
    var parts := [];
    for i := 0 to |matches|
      invariant |parts| == i
      invariant forall j | 0 <= j < i :: parts[j] == Part(j, matches[j], formatScore)
    {
      var sm := SafeGetScoreAndMetadata(matches[i]);
      var preview := MetaGet(sm.metadata, "content_preview", "");
      var part := "Doc " + NatToString(i + 1) + " — " + MetaGet(sm.metadata, "source", "Unknown")
                  + " (score " + formatScore(sm.score) + ")\n" + preview;
      assert part == Part(i, matches[i], formatScore);
      parts := parts + [part];
    }
    assert parts == Parts(matches, formatScore);
    context := Join("\n\n", parts);
  }

  /** The set of sources named by the matches. */
  function SourceSet(matches: seq<MatchItem>): (r: set<string>)
    ensures forall i | 0 <= i < |matches| :: SourceOf(matches[i]) in r
    ensures forall s | s in r :: exists i | 0 <= i < |matches| :: SourceOf(matches[i]) == s
  {
    if |matches| == 0 then {}
    else
      var last := |matches| - 1;
      var rest := SourceSet(matches[..last]);
      assert forall s | s in rest :: exists i | 0 <= i < last :: SourceOf(matches[i]) == s by {
        forall s | s in rest ensures exists i | 0 <= i < last :: SourceOf(matches[i]) == s {
          var i :| 0 <= i < last && SourceOf(matches[..last][i]) == s;
          assert matches[..last][i] == matches[i];
        }
      }
      rest + {SourceOf(matches[last])}
  }

  /** The handler's loop adding `meta.get("source", "Unknown")` for every match to a set. */
  method GatherSources(matches: seq<MatchItem>) returns (sources: set<string>)
    ensures sources == SourceSet(matches)
  {
    sources := {};
    if |matches| > 0 {
      for i := 0 to |matches|
        invariant sources == SourceSet(matches[..i])
      {
        var sm := SafeGetScoreAndMetadata(matches[i]);
        assert matches[..i + 1][..i] == matches[..i];
        sources := sources + {MetaGet(sm.metadata, "source", "Unknown")};
      }
      assert matches[..|matches|] == matches;
    }
  }

  /** `list(sources)`: the elements of a set, each once, in some order. */
  method ListOf(s: set<string>) returns (xs: seq<string>)
    ensures Distinct(xs) && Elems(xs) == s
  {
    xs := [];
    var rest := s;
    while rest != {}
      invariant Distinct(xs) && Elems(xs) + rest == s && Elems(xs) !! rest
      decreases |rest|
    {
      var x :| x in rest;
      assert x !in Elems(xs);
      xs := xs + [x];
      rest := rest - {x};
    }
  }

  // ---------------------------------------------------------------------------
  // message_handler
  // ---------------------------------------------------------------------------

  /**
   * What the handler works with besides the message: the index and embedder
   * (None when not configured), the listing of `./pdfs` (None when it does not
   * exist), the PDF text extractor, the clock, the text splitter, md5, the LLM
   * chain and the score format.
   */
  datatype Setup = Setup(
    index: Option<VectorIndex>,
    embeddings: Option<Embedder>,
    listing: Option<seq<string>>,
    extractText: string -> string,
    clock: nat -> string,
    split: TextSplitter,
    md5: Md5,
    llm: Llm,
    formatScore: ScoreFormat)

  const PdfDirectory := "./pdfs"
  const TopK: nat := 5
  const ReloadCommand := "/reload_pdfs"
  const StatsCommand := "/index_stats"
  const Apology := "I'm sorry, I encountered an error processing your request."

  /** The prompt given to the LLM. */
  function Prompt(context: string, userMsg: string): string {
    "Context from documents:\n" + context + "\n\nHuman Question: " + userMsg
  }

  /** The documents a reload ingests. */
  function ReloadDocuments(env: Setup): seq<Document> {
    ProcessedDocuments(PdfDirectory, env.listing, env.extractText, env.clock)
  }

  /** What storing the chunks of a reload does with the index. */
  function ReloadStore(env: Setup): StoreOutcome {
    ReloadedChunksHaveSource(PdfDirectory, env.listing, env.extractText, env.clock, env.split);
    StoreResult(env.index, env.embeddings, Chunks(ReloadDocuments(env), env.split), env.md5)
  }

  /** The replies to `/reload_pdfs`: progress, then no documents, an error, or the chunk count. */
  function ReloadReplies(env: Setup): (r: seq<Reply>)
    ensures |r| == 2 && r[0] == ReloadingReply
    ensures r[1] == NoDocsReply <==> |ReloadDocuments(env)| == 0
    ensures r[1].text == "Handler error" <==> |ReloadDocuments(env)| > 0 && ReloadStore(env).failure.Some?
  {
    if |ReloadDocuments(env)| == 0 then [ReloadingReply, NoDocsReply]
    else
      var outcome := ReloadStore(env);
      if outcome.failure.Some? then [ReloadingReply, HandlerErrorReply(outcome.failure.value)]
      else [ReloadingReply, ReloadProgressReply(|Chunks(ReloadDocuments(env), env.split)|)]
  }

  /** The LLM's stripped answer to the prompt, or the apology when the chain raised. */
  function LlmAnswer(llm: Llm, prompt: string): (r: string)
    ensures llm(prompt).None? ==> r == Apology
    ensures llm(prompt).Some? ==>
              && r == Strip(llm(prompt).value)
              && (r == [] <==> IsBlank(llm(prompt).value))
              && (r == [] || (!IsSpace(r[0]) && !IsSpace(r[|r| - 1])))
  {
    match llm(prompt)
    case Some(a) => StripEmptyIffBlank(a); Strip(a)
    case None => Apology
  }

  /** The reply to `/index_stats`. */
  function StatsReply(index: Option<VectorIndex>): (r: Reply)
    ensures index.None? ==> r == IndexUnavailableReply
    ensures index.Some? && index.value.describeIndexStats.Err? ==>
              r == IndexErrorReply(index.value.describeIndexStats.error)
    ensures |r.blocks| == 3 <==> index.Some? && index.value.describeIndexStats.Ok?
    ensures index.Some? && index.value.describeIndexStats.Ok? ==>
              r == IndexStatsReply(index.value.describeIndexStats.value)
  {
    match index
    case None => IndexUnavailableReply
    case Some(ix) =>
      match ix.describeIndexStats
      case Ok(pretty) => IndexStatsReply(pretty)
      case Err(e) => IndexErrorReply(e)
  }

  /** The answer to a question, when the embedder and the index are configured. */
  ghost function QueryReplies(env: Setup, userMsg: string): (r: seq<Reply>)
    requires env.index.Some? && env.embeddings.Some?
    ensures |r| == 1
    ensures r[0].text == "LLM response" <==> env.index.value.query(env.embeddings.value.embedQuery(userMsg), TopK).Ok?
    ensures var res := env.index.value.query(env.embeddings.value.embedQuery(userMsg), TopK);
              res.Err? ==> r == [HandlerErrorReply(res.error)]
  {
    match env.index.value.query(env.embeddings.value.embedQuery(userMsg), TopK)
    case Err(e) => [HandlerErrorReply(e)]
    case Ok(response) =>
      var matches := MatchesOf(response);
      var context := ContextOf(matches, env.formatScore);
      [LlmResponseReply(LlmAnswer(env.llm, Prompt(context, userMsg)), Listing(SourceSet(matches)), if |matches| > 0 then Some(context) else None)]
  }

  /** Everything `message_handler` says for a message whose `text` is `text` (None when absent). */
  ghost function HandlerReplies(env: Setup, text: Option<string>): (r: seq<Reply>)
    ensures 1 <= |r| <= 2
  {
    if text.None? || IsBlank(text.value) then [EmptyMessageReply]
    else if StartsWith(Lower(text.value), ReloadCommand) then ReloadReplies(env)
    else if StartsWith(Lower(text.value), StatsCommand) then [StatsReply(env.index)]
    else if env.embeddings.None? || env.index.None? then [RagUnavailableReply]
    else QueryReplies(env, text.value)
  }

  /** The `/reload_pdfs` branch: process the folder, chunk, store, report. */
  method Reload(log: ReplyLog, env: Setup)
    modifies log
    ensures log.said == old(log.said) + ReloadReplies(env)
  {
    log.Say(ReloadingReply);
    var documents := ProcessPdfFiles(PdfDirectory, env.listing, env.extractText, env.clock);
    if |documents| == 0 {
      log.Say(NoDocsReply);
      return;
    }
    var chunked := ChunkDocuments(documents, env.split);
    ReloadedChunksHaveSource(PdfDirectory, env.listing, env.extractText, env.clock, env.split);
    var outcome := StoreDocuments(env.index, env.embeddings, chunked, env.md5);
    if outcome.failure.Some? {
      // store_documents raised: the handler's outer except answers
      log.Say(HandlerErrorReply(outcome.failure.value));
      return;
    }
    // the count reported is the number of chunks, whatever was stored
    log.Say(ReloadProgressReply(|chunked|));
  }

  /** The normal query flow: embed, search, build the context, ask the LLM, answer. */
  method AnswerQuery(log: ReplyLog, env: Setup, userMsg: string)
    requires env.index.Some? && env.embeddings.Some?
    modifies log
    ensures log.said == old(log.said) + QueryReplies(env, userMsg)
  {
    var queryEmbedding := env.embeddings.value.embedQuery(userMsg);
    var searchRes := env.index.value.query(queryEmbedding, TopK);
    if searchRes.Err? {
      log.Say(HandlerErrorReply(searchRes.error));
      return;
    }
    var matches := MatchesOf(searchRes.value);
    var context := BuildContext(matches, env.formatScore);

    var response;
    var answer := env.llm(Prompt(context, userMsg));
    if answer.Some? {
      response := Strip(answer.value);
    } else {
      response := Apology;
    }
    assert response == LlmAnswer(env.llm, Prompt(context, userMsg));

    var sources := GatherSources(matches);
    var sourceList := ListOf(sources);
    SortOfAnyListing(sourceList, sources);
    var preview := if |matches| > 0 then Some(context) else None;
    assert QueryReplies(env, userMsg) == [LlmResponseReply(response, Sort(sourceList), preview)];
    SayLlmResponse(log, response, sourceList, preview);
  }

  /** `message_handler(message, say, logger)`. */
  method MessageHandler(log: ReplyLog, env: Setup, text: Option<string>)
    modifies log
    ensures log.said == old(log.said) + HandlerReplies(env, text)
  {
    if text.None? {
      log.Say(EmptyMessageReply);
      return;
    }
    var userMsg := text.value;
    StripEmptyIffBlank(userMsg);
    if |userMsg| == 0 || Strip(userMsg) == [] {
      log.Say(EmptyMessageReply);
      return;
    }

    var lowered := Lower(userMsg);
    if StartsWith(lowered, ReloadCommand) {
      Reload(log, env);
      return;
    }

    if StartsWith(lowered, StatsCommand) {
      if env.index.Some? {
        var stats := env.index.value.describeIndexStats;
        if stats.Ok? {
          log.Say(IndexStatsReply(stats.value));
        } else {
          log.Say(IndexErrorReply(stats.error));
        }
      } else {
        log.Say(IndexUnavailableReply);
      }
      return;
    }

    if env.embeddings.None? || env.index.None? {
      log.Say(RagUnavailableReply);
      return;
    }
    AnswerQuery(log, env, userMsg);
  }

  // ---------------------------------------------------------------------------
  // What the handler promises
  // ---------------------------------------------------------------------------

  /** Every message gets one reply, except `/reload_pdfs`, which gets a progress reply and a result. */
  lemma EveryMessageIsAnswered(env: Setup, text: Option<string>)
    ensures 1 <= |HandlerReplies(env, text)| <= 2
    ensures |HandlerReplies(env, text)| == 2 <==>
              text.Some? && !IsBlank(text.value) && StartsWith(Lower(text.value), ReloadCommand)
  {
  }

  /** A missing, empty or all-whitespace message is only asked to be non-empty. */
  lemma BlankMessageIsRejected(env: Setup, text: Option<string>)
    ensures HandlerReplies(env, text) == [EmptyMessageReply] <==> text.None? || IsBlank(text.value)
  {
    if text.Some? && !IsBlank(text.value) {
      var r := HandlerReplies(env, text);
      assert r[0].blocks != [] by {
        if StartsWith(Lower(text.value), ReloadCommand) {
          assert r[0] == ReloadingReply;
        } else if StartsWith(Lower(text.value), StatsCommand) {
          assert r[0] == StatsReply(env.index);
        } else if env.embeddings.None? || env.index.None? {
          assert r[0] == RagUnavailableReply;
        } else {
          assert r == QueryReplies(env, text.value);
        }
      }
    }
  }

  /** A message whose lower-cased form starts with a command is not blank. */
  lemma CommandIsNotBlank(m: string, command: string)
    requires |command| > 0 && command[0] == '/'
    requires StartsWith(Lower(m), command)
    ensures !IsBlank(m)
  {
    assert Lower(m)[0] == LowerChar(m[0]) == '/';
    assert m[0] == '/';
    assert !IsSpace(m[0]);
  }

  /**
   * Commands are matched case-insensitively on the start of the message and
   * whatever follows them is ignored: the reply is that of the bare command.
   */
  lemma {:induction false} CommandsIgnoreCaseAndRest(env: Setup, m: string)
    ensures StartsWith(Lower(m), ReloadCommand) ==> HandlerReplies(env, Some(m)) == ReloadReplies(env)
    ensures StartsWith(Lower(m), StatsCommand) ==> HandlerReplies(env, Some(m)) == [StatsReply(env.index)]
  {
    if StartsWith(Lower(m), ReloadCommand) {
      CommandIsNotBlank(m, ReloadCommand);
    }
    if StartsWith(Lower(m), StatsCommand) {
      CommandIsNotBlank(m, StatsCommand);
      assert Lower(m)[1] == StatsCommand[1] != ReloadCommand[1];
    }
  }

  /** Lower-casing the upper-case spellings of the commands gives the commands. */
  lemma LowerCommands()
    ensures Lower("/RELOAD_PDFS") == ReloadCommand
    ensures Lower("/Index_Stats") == StatsCommand
  {
  }

  /** The upper-case spelling of a command is the command. */
  lemma UpperCaseCommands(env: Setup)
    ensures HandlerReplies(env, Some("/RELOAD_PDFS")) == ReloadReplies(env)
    ensures HandlerReplies(env, Some("/Index_Stats")) == [StatsReply(env.index)]
  {
    LowerCommands();
    assert StartsWith(Lower("/RELOAD_PDFS"), ReloadCommand);
    CommandsIgnoreCaseAndRest(env, "/RELOAD_PDFS");
    assert StartsWith(Lower("/Index_Stats"), StatsCommand);
    CommandsIgnoreCaseAndRest(env, "/Index_Stats");
  }

  /** `/index_stats` without an index says the index is not available. */
  lemma StatsWithoutIndex(env: Setup, m: string)
    requires StartsWith(Lower(m), StatsCommand) && env.index.None?
    ensures HandlerReplies(env, Some(m)) == [IndexUnavailableReply]
  {
    CommandsIgnoreCaseAndRest(env, m);
  }

  /**
   * A question without an embedder or an index is answered with the
   * unavailability notice, whatever the LLM or the index would have said.
   */
  lemma RagUnavailableWithoutSetup(env: Setup, m: string)
    requires !IsBlank(m) && !StartsWith(Lower(m), ReloadCommand) && !StartsWith(Lower(m), StatsCommand)
    ensures HandlerReplies(env, Some(m)) == [RagUnavailableReply] <==> env.embeddings.None? || env.index.None?
  {
    if env.embeddings.Some? && env.index.Some? {
      var r := HandlerReplies(env, Some(m));
      assert r[0].text != RagUnavailableReply.text;
    }
  }

  /** Listing the empty set gives the empty list. */
  lemma ListingEmpty()
    ensures Listing({}) == []
  {
    var r := Listing({});
    assert forall i | 0 <= i < |r| :: r[i] in Elems(r);
  }

  /**
   * The answer to a question whose search succeeded: one reply, whose answer is
   * the stripped LLM output or, when the LLM failed, the apology; whose context
   * section appears exactly when there were matches; and whose sources line
   * lists the sources of the matches, each once, in ascending order.
   */
  lemma {:induction false} QueryAnswer(env: Setup, m: string)
    requires env.index.Some? && env.embeddings.Some?
    requires env.index.value.query(env.embeddings.value.embedQuery(m), TopK).Ok?
    ensures var matches := MatchesOf(env.index.value.query(env.embeddings.value.embedQuery(m), TopK).value);
      var prompt := Prompt(ContextOf(matches, env.formatScore), m);
      var b := QueryReplies(env, m)[0].blocks;
      && |QueryReplies(env, m)| == 1
      && |b| == (if |matches| > 0 then 6 else 4)
      && b[0] == Section(AnswerHeading + LlmAnswer(env.llm, prompt))
      && b[|b| - 2] == Context(SourcesLine(Listing(SourceSet(matches))))
      && (|matches| > 0 ==> b[2] == Section(ContextHeading + Truncated(ContextOf(matches, env.formatScore)) + "```"))
  {
    var matches := MatchesOf(env.index.value.query(env.embeddings.value.embedQuery(m), TopK).value);
    var context := ContextOf(matches, env.formatScore);
    var prompt := Prompt(context, m);
    var answer := LlmAnswer(env.llm, prompt);
    var sorted := Listing(SourceSet(matches));
    var preview := if |matches| > 0 then Some(context) else None;
    assert QueryReplies(env, m) == [LlmResponseReply(answer, sorted, preview)];
    ContextShownIffMatches(matches, env.formatScore);
    LlmResponseLayout(answer, sorted, preview);
  }

  /** An answer without sources and without context: answer, divider, "None", footer. */
  lemma BareLlmResponse(answer: string)
    ensures LlmResponseReply(answer, [], None)
         == Reply([Section(AnswerHeading + answer), Divider, Context(SourcesHeading + "None"), Context(Footer)],
                  "LLM response")
  {
    assert SourcesLine([]) == SourcesHeading + "None";
    var b := LlmResponseReply(answer, [], None).blocks;
    assert b == [Section(AnswerHeading + answer), Divider] + [] + [Context(SourcesLine([])), Context(Footer)];
  }

  /**
   * Without matches, the LLM is prompted with the no-documents sentinel as
   * context, and the answer shows no context section and lists no source.
   */
  lemma NoMatchesAnswer(env: Setup, m: string)
    requires env.index.Some? && env.embeddings.Some?
    requires env.index.value.query(env.embeddings.value.embedQuery(m), TopK).Ok?
    requires MatchesOf(env.index.value.query(env.embeddings.value.embedQuery(m), TopK).value) == []
    ensures var answer := LlmAnswer(env.llm, Prompt(NoDocumentsSentinel, m));
      QueryReplies(env, m) == [Reply([Section(AnswerHeading + answer), Divider,
                                      Context(SourcesHeading + "None"), Context(Footer)], "LLM response")]
  {
    var answer := LlmAnswer(env.llm, Prompt(NoDocumentsSentinel, m));
    assert SourceSet([]) == {};
    ListingEmpty();
    assert QueryReplies(env, m) == [LlmResponseReply(answer, [], None)];
    BareLlmResponse(answer);
  }

  /** Reloading with no PDF text to ingest says so, whatever the splitter, index or embedder. */
  lemma ReloadWithoutDocuments(env: Setup)
    requires env.listing.None? || forall f | f in env.listing.value :: !IsPdfName(f)
    ensures ReloadReplies(env) == [ReloadingReply, NoDocsReply]
  {
    if env.listing.Some? {
      var files := PdfFiles(env.listing.value);
      assert forall i | 0 <= i < |files| :: files[i] in files;
    }
  }

  /**
   * A reload that ingested documents reports the number of chunks, also when
   * nothing was stored because the index or the embedder is missing; a
   * failing upsert is reported as a handler error instead.
   */
  lemma ReloadReportsChunkCount(env: Setup)
    requires ReloadDocuments(env) != []
    ensures env.index.None? || env.embeddings.None? ==> ReloadStore(env).committed == []
    ensures ReloadStore(env).failure.None? ==>
              ReloadReplies(env) == [ReloadingReply, ReloadProgressReply(|Chunks(ReloadDocuments(env), env.split)|)]
    ensures ReloadStore(env).failure.Some? ==>
              ReloadReplies(env) == [ReloadingReply, HandlerErrorReply(ReloadStore(env).failure.value)]
  {
  }

  // ---------------------------------------------------------------------------
  // handle_file_upload
  // ---------------------------------------------------------------------------

  /** A shared file gets one reply exactly when its mimetype is `application/pdf`. */
  function FileSharedReplies(mimetype: Option<string>): (r: seq<Reply>)
    ensures |r| <= 1
    ensures |r| == 1 <==> mimetype == Some("application/pdf")
    ensures |r| == 1 ==> r[0] == PdfDetectedReply
  {
    if mimetype == Some("application/pdf") then [PdfDetectedReply] else []
  }

  /** `handle_file_upload(event, say, logger)`, given `event["file"]["mimetype"]`. */
  method HandleFileUpload(log: ReplyLog, mimetype: Option<string>)
    modifies log
    ensures log.said == old(log.said) + FileSharedReplies(mimetype)
  {
    if mimetype == Some("application/pdf") {
      log.Say(PdfDetectedReply);
    }
  }
}
