/**
 * The remote collaborators the bot calls: the embedder, the vector index and
 * the LLM chain. Each is a function value. A call that can raise returns its
 * outcome instead: `query` and `describe_index_stats` a Result whose error is
 * the exception's text, `upsert` that text or None, and the LLM None.
 * `embed_query` never fails here.
 */
module Services {
  import opened Wrappers
  import opened Utils

  /** An embedding vector. */
  type Vector = seq<real>

  /** The embedder: `embeddings.embed_query(text)`. */
  datatype Embedder = Embedder(embedQuery: string -> Vector)

  /** One record handed to `index.upsert`: `{"id", "values", "metadata"}`. */
  datatype VectorRecord = VectorRecord(id: string, values: Vector, metadata: Metadata)

  /** What `index.query(...)` returns, in the three shapes the handler accepts. */
  datatype QueryResponse =
    | WithMatches(matches: seq<MatchItem>)                 // has a `matches` attribute
    | ResponseDict(matchesEntry: Option<seq<MatchItem>>)   // a dict; None if "matches" is absent or None
    | MatchList(items: seq<MatchItem>)                     // anything else is the matches themselves

  /**
   * The matches of a response (slack_app.py:114). A dict without "matches"
   * yields None there, which every later test treats like an empty list.
   */
  function MatchesOf(response: QueryResponse): (r: seq<MatchItem>)
    ensures response.ResponseDict? && response.matchesEntry.None? ==> r == []
  {
    match response
    case WithMatches(ms) => ms
    case ResponseDict(entry) => entry.GetOr([])
    case MatchList(items) => items
  }

  /**
   * The vector index handle: `upsert(vectors=batch)` (None when it succeeds),
   * `query(vector=..., top_k=..., include_metadata=True)`, and
   * `describe_index_stats()` already rendered as text.
   */
  datatype VectorIndex = VectorIndex(
    upsert: seq<VectorRecord> -> Option<string>,
    query: (Vector, nat) -> Result<QueryResponse>,
    describeIndexStats: Result<string>)

  /** The LLM chain: `chat_chain.predict(input=...)`, or None when it raises. */
  type Llm = string -> Option<string>
}
