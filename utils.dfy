/**
 * utils.py: the content digest used in vector ids, and the adapter that turns
 * whatever the vector store returns for one match into a (score, metadata) pair.
 */
module Utils {
  import opened Wrappers

  // ---------------------------------------------------------------------------
  // create_document_hash
  // ---------------------------------------------------------------------------

  predicate IsHexDigit(c: char) {
    '0' <= c <= '9' || 'a' <= c <= 'f'
  }

  /** An md5 hex digest: 32 lower-case hexadecimal characters. */
  type HexDigest = s: string | |s| == 32 && forall i | 0 <= i < |s| :: IsHexDigit(s[i])
    witness "00000000000000000000000000000000"

  /** md5 of the UTF-8 encoding of a string, as an opaque collaborator. */
  type Md5 = string -> HexDigest

  /**
   * `create_document_hash(content)`: the hex digest of `content`. Being a
   * function of `content` alone, equal contents always get equal digests.
   */
  function CreateDocumentHash(md5: Md5, content: string): (h: string)
    ensures |h| == 32 && forall i | 0 <= i < |h| :: IsHexDigit(h[i])
  {
    md5(content)
  }

  // ---------------------------------------------------------------------------
  // Heterogeneous matches
  // ---------------------------------------------------------------------------

  /** Metadata as the vector store keeps it: string keys to string values. */
  type Metadata = map<string, string>

  /** What a match holds as its score, as far as `float()` is concerned. */
  datatype RawScore =
    | NoneScore                    // Python None
    | Numeric(value: real)         // a value float() accepts, with its float value
    | NonNumeric(truthy: bool)     // a value float() rejects, and whether it is truthy

  /** What a match holds as its metadata: None, or a dictionary. */
  datatype RawMetadata = NoneMetadata | MetadataDict(dict: Metadata)

  /** The outcome of `hasattr`/`getattr` on an object. */
  datatype Probe<T> = Missing | Found(value: T) | Raises

  /**
   * One item of a query response: either an object probed for the attributes
   * `score` and `metadata` (an object with neither is `Record(Missing, Missing)`),
   * or a dictionary, of which only the keys "score" and "metadata" matter.
   */
  datatype MatchItem =
    | Record(scoreAttr: Probe<RawScore>, metadataAttr: Probe<RawMetadata>)
    | Dict(scoreKey: Option<RawScore>, metadataKey: Option<RawMetadata>)

  /** The normalised pair the rest of the bot works with. */
  datatype ScoreAndMetadata = ScoreAndMetadata(score: real, metadata: Metadata)

  /** `float(score) if score is not None else 0.0`, with 0.0 when float() raises. */
  function AsFloat(s: RawScore): real {
    match s
    case NoneScore => 0.0
    case Numeric(v) => v
    case NonNumeric(_) => 0.0
  }

  /** `score or 0`: a falsy score becomes the integer 0. */
  function OrZero(s: RawScore): RawScore {
    match s
    case NoneScore => Numeric(0.0)
    case Numeric(v) => if v == 0.0 then Numeric(0.0) else s
    case NonNumeric(t) => if t then s else Numeric(0.0)
  }

  /** `value or {}`: None and the empty dictionary both become `{}`. */
  function OrEmpty(m: RawMetadata): Metadata {
    match m
    case NoneMetadata => map[]
    case MetadataDict(d) => d
  }

  /** The handler's rebinding `score = score or 0` never changes the final float. */
  lemma OrZeroKeepsFloat(s: RawScore)
    ensures AsFloat(OrZero(s)) == AsFloat(s)
  {
  }

  /** State of the locals when the first `try` block ends. */
  datatype Lookup = Lookup(score: RawScore, metadata: Metadata, raised: bool)

  /** The first `try` block: probe score, then metadata; stop at the first exception. */
  function LookUp(item: MatchItem): Lookup {
    match item
    case Record(s, m) =>
      if s.Raises? then Lookup(NoneScore, map[], true)
      else
        var score := if s.Found? then s.value else NoneScore;
        if m.Raises? then Lookup(score, map[], true)
        else Lookup(score, if m.Found? then OrEmpty(m.value) else map[], false)
    case Dict(s, m) =>
      Lookup(if s.Some? then s.value else NoneScore,
             if m.Some? then OrEmpty(m.value) else map[], false)
  }

  /**
   * `_safe_get_score_and_metadata(item)`: total, never raises. The score comes
   * from the `score` attribute if there is one, else from a dict's "score" key,
   * converted with `float`, and is 0.0 when missing, None, not convertible or
   * when looking it up raised. The metadata comes likewise from the attribute or
   * the key, with `{}` for a falsy value, a missing one, or a lookup that raised.
   */
  function SafeGetScoreAndMetadata(item: MatchItem): (r: ScoreAndMetadata)
    // an attribute wins over a key; a present score is converted
    ensures item.Record? && item.scoreAttr.Found? ==> r.score == AsFloat(item.scoreAttr.value)
    ensures item.Dict? && item.scoreKey.Some? ==> r.score == AsFloat(item.scoreKey.value)
    // missing score or a lookup that raised: 0.0
    ensures item.Record? && !item.scoreAttr.Found? ==> r.score == 0.0
    ensures item.Dict? && item.scoreKey.None? ==> r.score == 0.0
    // metadata from the attribute, unless an earlier lookup raised
    ensures item.Record? && !item.scoreAttr.Raises? && item.metadataAttr.Found? ==>
              r.metadata == OrEmpty(item.metadataAttr.value)
    ensures item.Record? && (item.scoreAttr.Raises? || !item.metadataAttr.Found?) ==>
              r.metadata == map[]
    ensures item.Dict? && item.metadataKey.Some? ==> r.metadata == OrEmpty(item.metadataKey.value)
    ensures item.Dict? && item.metadataKey.None? ==> r.metadata == map[]
  {
    var looked := LookUp(item);
    // except Exception: score = score or 0; metadata = metadata or {}
    var score := if looked.raised then OrZero(looked.score) else looked.score;
    var metadata := looked.metadata;
    ScoreAndMetadata(AsFloat(score), metadata)
  }
}
