/**
 * pdf_processor.py: turning a directory listing into documents, documents into
 * chunks, and chunks into vector records upserted in batches of 100.
 *
 * The directory listing, the text extracted from each file, the clock, the
 * text splitter, the embedder and the digest are parameters.
 */
module PdfProcessor {
  import opened Wrappers
  import opened PyStr
  import opened Utils
  import opened Services

  /** A metadata value of a document: the code stores strings and integers. */
  datatype MetaValue = Text(s: string) | Int(n: int)

  type DocMetadata = map<string, MetaValue>

  /** langchain's `Document(page_content, metadata)`. */
  datatype Document = Document(pageContent: string, metadata: DocMetadata)

  /** `f"{v}"` / `str(v)` of a metadata value. */
  function Render(v: MetaValue): string {
    match v
    case Text(s) => s
    case Int(n) => IntToString(n)
  }

  function Min(a: int, b: int): int {
    if a <= b then a else b
  }

  // ===========================================================================
  // process_pdf_files
  // ===========================================================================

  /** `f.lower().endswith(".pdf")`. */
  predicate IsPdfName(f: string) {
    EndsWith(Lower(f), ".pdf")
  }

  /** The listing entries that name PDF files, in listing order. */
  function PdfFiles(entries: seq<string>): (r: seq<string>)
    ensures |r| <= |entries|
    ensures forall f :: f in r <==> f in entries && IsPdfName(f)
  {
    if |entries| == 0 then []
    else
      var last := entries[|entries| - 1];
      PdfFiles(entries[..|entries| - 1]) + (if IsPdfName(last) then [last] else [])
  }

  /** One more entry is appended to the result exactly when it names a PDF file. */
  lemma PdfFilesSnoc(entries: seq<string>, f: string)
    ensures PdfFiles(entries + [f]) == PdfFiles(entries) + (if IsPdfName(f) then [f] else [])
  {
    assert (entries + [f])[..|entries|] == entries;
  }

  /**
   * Filtering a listing piece by piece is filtering it whole: the PDF entries
   * keep their listing order and their multiplicity.
   */
  lemma {:induction false} PdfFilesAppend(a: seq<string>, b: seq<string>)
    ensures PdfFiles(a + b) == PdfFiles(a) + PdfFiles(b)
    decreases |b|
  {
    if |b| == 0 {
      assert a + b == a;
    } else {
      var k := |b| - 1;
      var front, f := b[..k], b[k];
      assert b == front + [f];
      assert a + b == (a + front) + [f];
      PdfFilesSnoc(a + front, f);
      PdfFilesSnoc(front, f);
      PdfFilesAppend(a, front);
    }
  }

  /**
   * `os.path.join(directory, name)` for a plain file name: an absolute name
   * replaces the directory, otherwise the two are joined by exactly one "/"
   * unless the directory is empty or already ends with one.
   */
  function JoinPath(directory: string, name: string): string {
    if StartsWith(name, "/") then name
    else if directory == [] || EndsWith(directory, "/") then directory + name
    else directory + "/" + name
  }

  /**
   * A joined path ends with the name; an absolute name replaces the directory,
   * otherwise the path starts with the directory and a non-empty directory is
   * followed by exactly one "/" before the name.
   */
  lemma JoinPathShape(directory: string, name: string)
    ensures var r := JoinPath(directory, name);
      && EndsWith(r, name)
      && (StartsWith(name, "/") ==> r == name)
      && (!StartsWith(name, "/") ==>
            && StartsWith(r, directory)
            && |r| == |directory| + |name| + (if directory == [] || EndsWith(directory, "/") then 0 else 1)
            && (directory != [] ==> EndsWith(r[..|r| - |name|], "/")))
  {
    var r := JoinPath(directory, name);
    if !StartsWith(name, "/") {
      if directory == [] {
        assert r == name;
      } else if EndsWith(directory, "/") {
        assert r == directory + name && r[..|r| - |name|] == directory;
      } else {
        assert r == directory + "/" + name && r[..|r| - |name|] == directory + "/";
      }
    }
  }

  /** The document built for one file with text. */
  function MakeDocument(directory: string, filename: string, text: string, stamp: string): Document {
    Document(text, map["source" := Text(filename),
                       "file_path" := Text(JoinPath(directory, filename)),
                       "processed_at" := Text(stamp)])
  }

  /**
   * The documents the loop over `files` builds: one per file whose extracted
   * text is not blank, time-stamped with the clock reading for that file.
   */
  function LoadDocuments(directory: string, files: seq<string>, extractText: string -> string,
                         clock: nat -> string): seq<Document>
  {
    if |files| == 0 then []
    else
      var k := |files| - 1;
      var text := extractText(JoinPath(directory, files[k]));
      LoadDocuments(directory, files[..k], extractText, clock)
        + (if !IsBlank(text) then [MakeDocument(directory, files[k], text, clock(k))] else [])
  }

  /**
   * What `process_pdf_files` returns: nothing if the directory does not exist
   * (`listing` is None) or lists no PDF file, else the documents of its PDFs.
   */
  function ProcessedDocuments(directory: string, listing: Option<seq<string>>,
                              extractText: string -> string, clock: nat -> string): seq<Document>
  {
    match listing
    case None => []
    case Some(entries) =>
      var files := PdfFiles(entries);
      if |files| == 0 then [] else LoadDocuments(directory, files, extractText, clock)
  }

  /** The loop of `process_pdf_files` over the PDF files found. */
  method LoadPdfFiles(pdfDirectory: string, pdfFiles: seq<string>,
                      extractText: string -> string, clock: nat -> string)
    returns (documents: seq<Document>)
    ensures documents == LoadDocuments(pdfDirectory, pdfFiles, extractText, clock)
  {
    documents := [];
    for k := 0 to |pdfFiles|
      invariant documents == LoadDocuments(pdfDirectory, pdfFiles[..k], extractText, clock)
    {
      var filename := pdfFiles[k];
      var pdfPath := JoinPath(pdfDirectory, filename);
      var text := extractText(pdfPath);
      assert pdfFiles[..k + 1][..k] == pdfFiles[..k];
      StripEmptyIffBlank(text);
      if Strip(text) != [] {
        documents := documents + [MakeDocument(pdfDirectory, filename, text, clock(k))];
      }
    }
    assert pdfFiles[..|pdfFiles|] == pdfFiles;
  }

  method ProcessPdfFiles(pdfDirectory: string, listing: Option<seq<string>>,
                         extractText: string -> string, clock: nat -> string)
    returns (documents: seq<Document>)
    ensures documents == ProcessedDocuments(pdfDirectory, listing, extractText, clock)
    ensures listing.Some? && (forall f | f in listing.value :: !IsPdfName(f)) ==> documents == []
  {
    documents := [];
    if listing.None? {
      return;
    }
    var pdfFiles := PdfFiles(listing.value);
    if |pdfFiles| == 0 {
      return;
    }
    // a PDF entry exists, so the listing is not PDF-free (second postcondition)
    assert pdfFiles[0] in pdfFiles;
    documents := LoadPdfFiles(pdfDirectory, pdfFiles, extractText, clock);
  }

  /** Every loaded document is the document of some file whose text is not blank. */
  lemma {:induction false} LoadDocumentsSound(directory: string, files: seq<string>,
                                              extractText: string -> string, clock: nat -> string)
    ensures forall d | d in LoadDocuments(directory, files, extractText, clock) ::
              exists k | 0 <= k < |files| ::
                !IsBlank(extractText(JoinPath(directory, files[k])))
                && d == MakeDocument(directory, files[k], extractText(JoinPath(directory, files[k])), clock(k))
  {
    if |files| > 0 {
      var n := |files| - 1;
      var prefix := files[..n];
      LoadDocumentsSound(directory, prefix, extractText, clock);
      var front := LoadDocuments(directory, prefix, extractText, clock);
      var text := extractText(JoinPath(directory, files[n]));
      var last := if !IsBlank(text) then [MakeDocument(directory, files[n], text, clock(n))] else [];
      assert LoadDocuments(directory, files, extractText, clock) == front + last;
      forall d | d in front + last
        ensures exists k | 0 <= k < |files| ::
                  !IsBlank(extractText(JoinPath(directory, files[k])))
                  && d == MakeDocument(directory, files[k], extractText(JoinPath(directory, files[k])), clock(k))
      {
        if d in front {
          var k :| 0 <= k < n && !IsBlank(extractText(JoinPath(directory, prefix[k])))
                   && d == MakeDocument(directory, prefix[k], extractText(JoinPath(directory, prefix[k])), clock(k));
          assert prefix[k] == files[k];
        } else {
          assert d == MakeDocument(directory, files[n], text, clock(n));
        }
      }
    }
  }

  /** Every file whose text is not blank yields its document. */
  lemma {:induction false} LoadDocumentsComplete(directory: string, files: seq<string>,
                                                 extractText: string -> string, clock: nat -> string)
    ensures forall k | 0 <= k < |files| && !IsBlank(extractText(JoinPath(directory, files[k]))) ::
              MakeDocument(directory, files[k], extractText(JoinPath(directory, files[k])), clock(k))
                in LoadDocuments(directory, files, extractText, clock)
  {
    if |files| > 0 {
      var n := |files| - 1;
      var prefix := files[..n];
      LoadDocumentsComplete(directory, prefix, extractText, clock);
      var front := LoadDocuments(directory, prefix, extractText, clock);
      var text := extractText(JoinPath(directory, files[n]));
      var last := if !IsBlank(text) then [MakeDocument(directory, files[n], text, clock(n))] else [];
      assert LoadDocuments(directory, files, extractText, clock) == front + last;
      forall k | 0 <= k < |files| && !IsBlank(extractText(JoinPath(directory, files[k])))
        ensures MakeDocument(directory, files[k], extractText(JoinPath(directory, files[k])), clock(k)) in front + last
      {
        if k < n {
          assert prefix[k] == files[k];
        }
      }
    }
  }

  /**
   * Every processed document comes from a PDF entry of the listing, carries its
   * name as a text `source` and has non-blank content; conversely every PDF
   * entry whose text is not blank yields its document.
   */
  lemma ProcessedDocumentsExactly(directory: string, listing: Option<seq<string>>,
                                  extractText: string -> string, clock: nat -> string)
    ensures var docs := ProcessedDocuments(directory, listing, extractText, clock);
      && (listing.None? ==> docs == [])
      && (forall d | d in docs ::
            && listing.Some?
            && !IsBlank(d.pageContent)
            && "source" in d.metadata && d.metadata["source"].Text?
            && d.metadata["source"].s in listing.value
            && IsPdfName(d.metadata["source"].s))
      && (listing.Some? ==>
            var files := PdfFiles(listing.value);
            forall k | 0 <= k < |files| && !IsBlank(extractText(JoinPath(directory, files[k]))) ::
              MakeDocument(directory, files[k], extractText(JoinPath(directory, files[k])), clock(k)) in docs)
  {
    if listing.Some? {
      var files := PdfFiles(listing.value);
      LoadDocumentsSound(directory, files, extractText, clock);
      LoadDocumentsComplete(directory, files, extractText, clock);
      forall k | 0 <= k < |files| ensures files[k] in listing.value && IsPdfName(files[k]) {
        assert files[k] in files;
      }
    }
  }

  // ===========================================================================
  // chunk_documents
  // ===========================================================================

  /** The splitter as configured (chunk size and overlap): text to pieces. */
  type TextSplitter = string -> seq<string>

  /** `{**parent, "chunk_id": i, "total_chunks": total}`. */
  function ChunkMetadata(parent: DocMetadata, i: nat, total: nat): DocMetadata {
    parent["chunk_id" := Int(i)]["total_chunks" := Int(total)]
  }

  /** The chunk document built from piece `i` of `pieces`. */
  function ChunkAt(parent: Document, pieces: seq<string>, i: nat): Document
    requires i < |pieces|
  {
    Document(pieces[i], ChunkMetadata(parent.metadata, i, |pieces|))
  }

  /** The chunks the inner loop keeps from the first `j` pieces of one document. */
  function KeptChunks(parent: Document, pieces: seq<string>, j: nat): seq<Document>
    requires j <= |pieces|
  {
    if j == 0 then []
    else
      KeptChunks(parent, pieces, j - 1)
        + (if !IsBlank(pieces[j - 1]) then [ChunkAt(parent, pieces, j - 1)] else [])
  }

  /** What `chunk_documents` returns: the kept chunks of each document, in order. */
  function Chunks(documents: seq<Document>, split: TextSplitter): seq<Document> {
    if |documents| == 0 then []
    else
      var doc := documents[|documents| - 1];
      var pieces := split(doc.pageContent);
      Chunks(documents[..|documents| - 1], split) + KeptChunks(doc, pieces, |pieces|)
  }

  /** The inner loop of `chunk_documents`: the non-blank pieces of one document, as chunks. */
  method KeepChunks(doc: Document, chunks: seq<string>) returns (kept: seq<Document>)
    ensures kept == KeptChunks(doc, chunks, |chunks|)
  {
    kept := [];
    for i := 0 to |chunks|
      invariant kept == KeptChunks(doc, chunks, i)
    {
      StripEmptyIffBlank(chunks[i]);
      if Strip(chunks[i]) != [] {
        kept := kept + [Document(chunks[i], ChunkMetadata(doc.metadata, i, |chunks|))];
      }
    }
  }

  method ChunkDocuments(documents: seq<Document>, split: TextSplitter) returns (chunked: seq<Document>)
    ensures chunked == Chunks(documents, split)
    ensures documents == [] ==> chunked == []
  {
    if |documents| == 0 {
      return [];
    }
    chunked := [];
    for d := 0 to |documents|
      invariant chunked == Chunks(documents[..d], split)
    {
      var doc := documents[d];
      var chunks := split(doc.pageContent);
      var kept := KeepChunks(doc, chunks);
      assert documents[..d + 1][..d] == documents[..d];
      chunked := chunked + kept;
    }
    assert documents[..|documents|] == documents;
  }

  /** Where a chunk came from: a document's position and the piece's position in the splitter output. */
  datatype Origin = Origin(doc: nat, piece: nat)

  predicate Before(a: Origin, b: Origin) {
    a.doc < b.doc || (a.doc == b.doc && a.piece < b.piece)
  }

  /** The origins of `KeptChunks(parent, pieces, j)` for document number `d`, position by position. */
  ghost function KeptOrigins(d: nat, pieces: seq<string>, j: nat): (r: seq<Origin>)
    requires j <= |pieces|
    ensures forall k | 0 <= k < |r| :: r[k].doc == d && r[k].piece < j && !IsBlank(pieces[r[k].piece])
    ensures forall k, l | 0 <= k < l < |r| :: r[k].piece < r[l].piece
    ensures forall i | 0 <= i < j && !IsBlank(pieces[i]) :: Origin(d, i) in r
  {
    if j == 0 then []
    else KeptOrigins(d, pieces, j - 1) + (if !IsBlank(pieces[j - 1]) then [Origin(d, j - 1)] else [])
  }

  /** The origins of `Chunks(documents, split)`, position by position. */
  ghost function Origins(documents: seq<Document>, split: TextSplitter): seq<Origin> {
    if |documents| == 0 then []
    else
      var n := |documents| - 1;
      var pieces := split(documents[n].pageContent);
      Origins(documents[..n], split) + KeptOrigins(n, pieces, |pieces|)
  }

  /** `o` names a non-blank piece of one of the documents. */
  ghost predicate NamesText(documents: seq<Document>, split: TextSplitter, o: Origin) {
    o.doc < |documents| && o.piece < |split(documents[o.doc].pageContent)|
    && !IsBlank(split(documents[o.doc].pageContent)[o.piece])
  }

  /** Every origin names a non-blank piece. */
  lemma {:induction false} OriginsNameText(documents: seq<Document>, split: TextSplitter)
    ensures forall k | 0 <= k < |Origins(documents, split)| ::
              NamesText(documents, split, Origins(documents, split)[k])
  {
    if |documents| > 0 {
      var n := |documents| - 1;
      var front := documents[..n];
      OriginsNameText(front, split);
      forall o | NamesText(front, split, o) ensures NamesText(documents, split, o) {
        assert front[o.doc] == documents[o.doc];
      }
    }
  }

  /** Origins follow document order, then piece order. */
  lemma {:induction false} OriginsOrdered(documents: seq<Document>, split: TextSplitter)
    ensures forall k, l | 0 <= k < l < |Origins(documents, split)| ::
              Before(Origins(documents, split)[k], Origins(documents, split)[l])
  {
    if |documents| > 0 {
      var n := |documents| - 1;
      OriginsOrdered(documents[..n], split);
      OriginsNameText(documents[..n], split);
    }
  }

  /** Every non-blank piece of every document has an origin. */
  lemma {:induction false} OriginsComplete(documents: seq<Document>, split: TextSplitter)
    ensures forall o | NamesText(documents, split, o) :: o in Origins(documents, split)
  {
    if |documents| > 0 {
      var n := |documents| - 1;
      var front := documents[..n];
      OriginsComplete(front, split);
      forall o | NamesText(documents, split, o) && o.doc < n ensures NamesText(front, split, o) {
        assert front[o.doc] == documents[o.doc];
      }
    }
  }

  lemma {:induction false} KeptChunksFollowOrigins(parent: Document, d: nat, pieces: seq<string>, j: nat)
    requires j <= |pieces|
    ensures |KeptChunks(parent, pieces, j)| == |KeptOrigins(d, pieces, j)|
    ensures forall k | 0 <= k < |KeptChunks(parent, pieces, j)| ::
              KeptChunks(parent, pieces, j)[k] == ChunkAt(parent, pieces, KeptOrigins(d, pieces, j)[k].piece)
  {
    if j > 0 {
      KeptChunksFollowOrigins(parent, d, pieces, j - 1);
    }
  }

  /** Chunk `k` is built from the piece that `Origins[k]` names. */
  lemma {:induction false} ChunksFollowOrigins(documents: seq<Document>, split: TextSplitter)
    ensures |Chunks(documents, split)| == |Origins(documents, split)|
    ensures forall k | 0 <= k < |Chunks(documents, split)| ::
              var o := Origins(documents, split)[k];
              o.doc < |documents| && o.piece < |split(documents[o.doc].pageContent)|
              && Chunks(documents, split)[k]
                   == ChunkAt(documents[o.doc], split(documents[o.doc].pageContent), o.piece)
  {
    OriginsNameText(documents, split);
    if |documents| > 0 {
      var n := |documents| - 1;
      var pieces := split(documents[n].pageContent);
      ChunksFollowOrigins(documents[..n], split);
      KeptChunksFollowOrigins(documents[n], n, pieces, |pieces|);
      var front := Chunks(documents[..n], split);
      var kept := KeptChunks(documents[n], pieces, |pieces|);
      var frontOrigins := Origins(documents[..n], split);
      var keptOrigins := KeptOrigins(n, pieces, |pieces|);
      assert Chunks(documents, split) == front + kept;
      assert Origins(documents, split) == frontOrigins + keptOrigins;
      forall k | 0 <= k < |front + kept|
        ensures var o: Origin := (frontOrigins + keptOrigins)[k];
                o.doc < |documents| && o.piece < |split(documents[o.doc].pageContent)|
                && (front + kept)[k] == ChunkAt(documents[o.doc], split(documents[o.doc].pageContent), o.piece)
      {
        if k < |front| {
          var o := frontOrigins[k];
          assert documents[..n][o.doc] == documents[o.doc];
        } else {
          var o := keptOrigins[k - |front|];
          assert o.doc == n && o.piece < |pieces|;
        }
      }
    }
  }

  /** A chunk keeps its parent's keys and records its position and the piece count. */
  lemma ChunkAtMetadata(parent: Document, pieces: seq<string>, i: nat)
    requires i < |pieces|
    ensures var m := ChunkAt(parent, pieces, i).metadata;
      && "chunk_id" in m && "total_chunks" in m
      && m["chunk_id"] == Int(i) && m["total_chunks"] == Int(|pieces|)
      && m.Keys == parent.metadata.Keys + {"chunk_id", "total_chunks"}
      && forall key | key in parent.metadata && key != "chunk_id" && key != "total_chunks" ::
           key in m && m[key] == parent.metadata[key]
  {
  }

  /**
   * Every chunk is a non-blank piece of its document, keeps every key of the
   * document's metadata except `chunk_id` and `total_chunks`, and records the
   * piece's position in the splitter's output and the splitter's unfiltered
   * piece count; chunks come in document order, then piece order; and every
   * non-blank piece of every document becomes a chunk.
   */
  lemma ChunkDocumentsProperties(documents: seq<Document>, split: TextSplitter)
    ensures var chunks := Chunks(documents, split);
            var origins := Origins(documents, split);
      && |origins| == |chunks|
      && (forall k | 0 <= k < |chunks| ::
            && NamesText(documents, split, origins[k])
            && var parent := documents[origins[k].doc];
               var pieces := split(parent.pageContent);
               && chunks[k].pageContent == pieces[origins[k].piece]
               && "chunk_id" in chunks[k].metadata && "total_chunks" in chunks[k].metadata
               && chunks[k].metadata["chunk_id"] == Int(origins[k].piece)
               && chunks[k].metadata["total_chunks"] == Int(|pieces|)
               && chunks[k].metadata.Keys == parent.metadata.Keys + {"chunk_id", "total_chunks"}
               && (forall key | key in parent.metadata && key != "chunk_id" && key != "total_chunks" ::
                     key in chunks[k].metadata && chunks[k].metadata[key] == parent.metadata[key]))
      && (forall k, l | 0 <= k < l < |chunks| :: Before(origins[k], origins[l]))
      && (forall o | NamesText(documents, split, o) :: o in origins)
  {
    ChunksFollowOrigins(documents, split);
    OriginsNameText(documents, split);
    OriginsOrdered(documents, split);
    OriginsComplete(documents, split);
    var chunks := Chunks(documents, split);
    var origins := Origins(documents, split);
    forall k | 0 <= k < |chunks|
      ensures var parent := documents[origins[k].doc];
              var pieces := split(parent.pageContent);
              && "chunk_id" in chunks[k].metadata && "total_chunks" in chunks[k].metadata
              && chunks[k].metadata["chunk_id"] == Int(origins[k].piece)
              && chunks[k].metadata["total_chunks"] == Int(|pieces|)
              && chunks[k].metadata.Keys == parent.metadata.Keys + {"chunk_id", "total_chunks"}
              && (forall key | key in parent.metadata && key != "chunk_id" && key != "total_chunks" ::
                    key in chunks[k].metadata && chunks[k].metadata[key] == parent.metadata[key])
    {
      var parent := documents[origins[k].doc];
      ChunkAtMetadata(parent, split(parent.pageContent), origins[k].piece);
    }
  }

  /** Every chunk has non-blank content. */
  lemma ChunksNonBlank(documents: seq<Document>, split: TextSplitter)
    ensures forall c | c in Chunks(documents, split) :: !IsBlank(c.pageContent)
  {
    ChunkDocumentsProperties(documents, split);
    var chunks := Chunks(documents, split);
    forall c | c in chunks ensures !IsBlank(c.pageContent) {
      var k :| 0 <= k < |chunks| && chunks[k] == c;
    }
  }

  /**
   * `total_chunks` counts blank pieces too, so the kept `chunk_id`s of a
   * document can skip numbers and fall short of `total_chunks - 1`.
   */
  lemma ChunkIdsMayHaveGaps(split: TextSplitter)
    requires split("a b") == ["a", " ", "b"]
    ensures var chunks := Chunks([Document("a b", map["source" := Text("f.pdf")])], split);
      && |chunks| == 2
      && "chunk_id" in chunks[0].metadata && "chunk_id" in chunks[1].metadata
      && "total_chunks" in chunks[1].metadata
      && chunks[0].metadata["chunk_id"] == Int(0) && chunks[1].metadata["chunk_id"] == Int(2)
      && chunks[1].metadata["total_chunks"] == Int(3)
  {
    var doc := Document("a b", map["source" := Text("f.pdf")]);
    var pieces := ["a", " ", "b"];
    assert !IsSpace("a"[0]) && IsBlank(" ") && !IsSpace("b"[0]);
    assert KeptChunks(doc, pieces, 1) == [ChunkAt(doc, pieces, 0)];
    assert KeptChunks(doc, pieces, 2) == [ChunkAt(doc, pieces, 0)];
    assert KeptChunks(doc, pieces, 3) == [ChunkAt(doc, pieces, 0), ChunkAt(doc, pieces, 2)];
    assert [doc][..0] == [];
  }

  // ===========================================================================
  // store_documents
  // ===========================================================================

  /** `doc.metadata["source"]` exists and is a string. */
  predicate HasTextSource(doc: Document) {
    "source" in doc.metadata && doc.metadata["source"].Text?
  }

  /** `str(doc.metadata.get("chunk_id", 0))`. */
  function ChunkIdText(metadata: DocMetadata): string {
    Render(if "chunk_id" in metadata then metadata["chunk_id"] else Int(0))
  }

  /**
   * The chunk id text is "0" without a chunk id, and a decimal numeral, signed
   * exactly when negative, for an integer chunk id.
   */
  lemma ChunkIdTextShape(metadata: DocMetadata)
    ensures var r := ChunkIdText(metadata);
      && ("chunk_id" !in metadata ==> r == "0")
      && ("chunk_id" in metadata && metadata["chunk_id"].Int? && metadata["chunk_id"].n >= 0 ==>
            && r != [] && (forall i | 0 <= i < |r| :: IsDigit(r[i]))
            && DigitsValue(r) == metadata["chunk_id"].n)
      && ("chunk_id" in metadata && metadata["chunk_id"].Int? && metadata["chunk_id"].n < 0 ==>
            && |r| >= 2 && r[0] == '-' && (forall i | 1 <= i < |r| :: IsDigit(r[i]))
            && DigitsValue(r[1..]) == -metadata["chunk_id"].n)
  {
    if "chunk_id" in metadata && metadata["chunk_id"].Int? {
      var n := metadata["chunk_id"].n;
      if n >= 0 {
        NatToStringValue(n);
      } else {
        NatToStringValue(-n);
        assert ChunkIdText(metadata)[1..] == NatToString(-n);
      }
    }
  }

  /** `content[:200] + "..."` if longer than 200 characters, else `content`. */
  function ContentPreview(content: string): (r: string)
    ensures |r| <= 203
    ensures |content| <= 200 ==> r == content
    ensures |content| > 200 ==> |r| == 203 && r[..200] == content[..200] && r[200..] == "..."
  {
    if |content| > 200 then content[..200] + "..." else content
  }

  /** `f"{source}_{chunk_id}_{digest[:8]}"`. */
  function VectorId(source: string, chunkId: string, digest: string): string
    requires |digest| >= 8
  {
    source + "_" + chunkId + "_" + digest[..8]
  }

  /** The id is the source, "_", the chunk id, "_" and the first 8 digest characters. */
  lemma VectorIdShape(source: string, chunkId: string, digest: string)
    requires |digest| >= 8
    ensures var r := VectorId(source, chunkId, digest);
      && StartsWith(r, source + "_") && EndsWith(r, "_" + digest[..8])
      && |r| == |source| + |chunkId| + 10 && r[|source| + 1..|r| - 9] == chunkId
  {
  }

  /**
   * Vector ids are unique: the id determines the source, the chunk number and
   * the first eight hex digits of the content digest, and is determined by
   * them. The chunk numeral holds no "_", so the id is parsed from its end even
   * when the source name contains "_": re-ingesting the same chunk overwrites its
   * vector, and chunks of different files never overwrite each other.
   */
  lemma VectorIdInjective(s1: string, s2: string, i: nat, j: nat, h1: HexDigest, h2: HexDigest)
    ensures VectorId(s1, NatToString(i), h1) == VectorId(s2, NatToString(j), h2)
            <==> s1 == s2 && i == j && h1[..8] == h2[..8]
  {
    var a, b := NatToString(i), NatToString(j);
    if VectorId(s1, a, h1) == VectorId(s2, b, h2) {
      var d1, d2 := h1[..8], h2[..8];
      assert forall k | 0 <= k < |d1| :: d1[k] != '_' by {
        forall k | 0 <= k < |d1| ensures d1[k] != '_' { assert IsHexDigit(h1[k]); }
      }
      assert forall k | 0 <= k < |d2| :: d2[k] != '_' by {
        forall k | 0 <= k < |d2| ensures d2[k] != '_' { assert IsHexDigit(h2[k]); }
      }
      SplitAtLastSeparator(s1 + "_" + a, d1, s2 + "_" + b, d2);
      SplitAtLastSeparator(s1, a, s2, b);
      NatToStringInjective(i, j);
    }
  }

  /** `u + "_" + t` with no "_" in `t` splits back into `u` and `t`. */
  lemma SplitAtLastSeparator(u1: string, t1: string, u2: string, t2: string)
    requires forall k | 0 <= k < |t1| :: t1[k] != '_'
    requires forall k | 0 <= k < |t2| :: t2[k] != '_'
    requires u1 + "_" + t1 == u2 + "_" + t2
    ensures u1 == u2 && t1 == t2
  {
    var w := u1 + "_" + t1;
    TrailingLenAfterSeparator(u1, t1);
    TrailingLenAfterSeparator(u2, t2);
    assert t1 == w[|w| - |t1|..] && t2 == w[|w| - |t2|..];
    assert u1 == w[..|u1|] && u2 == w[..|u2|];
  }

  /** The number of characters after the last "_" (all of them if there is none). */
  function TrailingLen(w: string): nat {
    if |w| == 0 || w[|w| - 1] == '_' then 0 else 1 + TrailingLen(w[..|w| - 1])
  }

  /** After `s + "_"`, a text without "_" is exactly what follows the last "_". */
  lemma {:induction false} TrailingLenAfterSeparator(s: string, t: string)
    requires forall k | 0 <= k < |t| :: t[k] != '_'
    ensures TrailingLen(s + "_" + t) == |t|
  {
    if |t| > 0 {
      var w := s + "_" + t;
      assert w[..|w| - 1] == s + "_" + t[..|t| - 1];
      TrailingLenAfterSeparator(s, t[..|t| - 1]);
    }
  }

  /** The record built for one chunk. */
  function MakeRecord(embed: Embedder, md5: Md5, doc: Document): (r: VectorRecord)
    requires HasTextSource(doc)
    ensures r.metadata.Keys == {"source", "chunk_id", "content_preview"}
    ensures r.metadata["source"] == doc.metadata["source"].s
    ensures r.metadata["chunk_id"] == ChunkIdText(doc.metadata)
    ensures r.metadata["content_preview"] == ContentPreview(doc.pageContent)
    ensures r.id == VectorId(doc.metadata["source"].s, ChunkIdText(doc.metadata), md5(doc.pageContent))
    ensures r.values == embed.embedQuery(doc.pageContent)
  {
    var source := doc.metadata["source"].s;
    var chunkId := ChunkIdText(doc.metadata);
    var digest := CreateDocumentHash(md5, doc.pageContent);
    VectorRecord(VectorId(source, chunkId, digest), embed.embedQuery(doc.pageContent),
                 map["source" := source, "chunk_id" := chunkId,
                     "content_preview" := ContentPreview(doc.pageContent)])
  }

  /** The records the first loop of `store_documents` builds, one per document. */
  function Vectors(embed: Embedder, md5: Md5, documents: seq<Document>): (r: seq<VectorRecord>)
    requires forall d | d in documents :: HasTextSource(d)
    ensures |r| == |documents|
    ensures forall k | 0 <= k < |r| :: r[k] == MakeRecord(embed, md5, documents[k])
  {
    if |documents| == 0 then []
    else
      var n := |documents| - 1;
      Vectors(embed, md5, documents[..n]) + [MakeRecord(embed, md5, documents[n])]
  }

  /** The slices `vs[i:i+size]`, `vs[i+size:i+2*size]`, ... of `range(i, len(vs), size)`. */
  function BatchesFrom<T>(vs: seq<T>, size: nat, i: nat): seq<seq<T>>
    requires size > 0
    decreases |vs| - i
  {
    if i >= |vs| then [] else [vs[i..Min(i + size, |vs|)]] + BatchesFrom(vs, size, i + size)
  }

  function Flatten<T>(bs: seq<seq<T>>): seq<T> {
    if |bs| == 0 then [] else bs[0] + Flatten(bs[1..])
  }

  /** The batches, concatenated, give back the records they were cut from. */
  lemma {:induction false} BatchesCover<T>(vs: seq<T>, size: nat, i: nat)
    requires size > 0 && i <= |vs|
    ensures Flatten(BatchesFrom(vs, size, i)) == vs[i..]
    decreases |vs| - i
  {
    if i < |vs| {
      var j := Min(i + size, |vs|);
      BatchesCover(vs, size, j);
      var bs := BatchesFrom(vs, size, i);
      if j == |vs| {
        assert BatchesFrom(vs, size, i + size) == [];
      } else {
        assert j == i + size;
      }
      assert bs[1..] == BatchesFrom(vs, size, i + size);
      assert vs[i..] == vs[i..j] + vs[j..];
    }
  }

  /** Every batch holds between 1 and `size` records, and every batch but the last exactly `size`. */
  lemma {:induction false} BatchesShape<T>(vs: seq<T>, size: nat, i: nat)
    requires size > 0
    ensures var bs := BatchesFrom(vs, size, i);
      && (forall k | 0 <= k < |bs| :: 1 <= |bs[k]| <= size)
      && (forall k | 0 <= k < |bs| - 1 :: |bs[k]| == size)
    decreases |vs| - i
  {
    if i < |vs| {
      BatchesShape(vs, size, i + size);
      var bs := BatchesFrom(vs, size, i);
      assert bs[1..] == BatchesFrom(vs, size, i + size);
      if i + size >= |vs| {
        assert BatchesFrom(vs, size, i + size) == [];
      }
    }
  }

  /** `range(i, len(vs), 100)` yields `ceil((len(vs) - i) / 100)` batches. */
  lemma {:induction false} BatchCount<T>(vs: seq<T>, i: nat)
    requires i <= |vs|
    ensures |BatchesFrom(vs, BatchSize, i)| == (|vs| - i + 99) / 100
    decreases |vs| - i
  {
    if i < |vs| {
      if i + BatchSize < |vs| {
        BatchCount(vs, i + BatchSize);
      } else {
        assert BatchesFrom(vs, BatchSize, i + BatchSize) == [];
      }
    }
  }

  /** The outcome of `store_documents`: the batches upserted, and the exception, if one was raised. */
  datatype StoreOutcome = StoreOutcome(committed: seq<seq<VectorRecord>>, failure: Option<string>)

  /**
   * Upserting batches one after the other, stopping at the first that raises;
   * batches already upserted stay committed.
   */
  function Upload(upsert: seq<VectorRecord> -> Option<string>, batches: seq<seq<VectorRecord>>): (r: StoreOutcome)
    ensures |r.committed| <= |batches| && r.committed == batches[..|r.committed|]
    ensures forall k | 0 <= k < |r.committed| :: upsert(batches[k]).None?
    ensures r.failure.None? ==> r.committed == batches
    ensures r.failure.Some? ==> |r.committed| < |batches| && upsert(batches[|r.committed|]) == r.failure
  {
    if |batches| == 0 then StoreOutcome([], None)
    else match upsert(batches[0])
      case Some(e) => StoreOutcome([], Some(e))
      case None =>
        var rest := Upload(upsert, batches[1..]);
        StoreOutcome([batches[0]] + rest.committed, rest.failure)
  }

  const BatchSize: nat := 100

  /** What `store_documents` does with the index. */
  function StoreResult(index: Option<VectorIndex>, embeddings: Option<Embedder>,
                       documents: seq<Document>, md5: Md5): StoreOutcome
    requires forall d | d in documents :: HasTextSource(d)
  {
    if index.None? || embeddings.None? || |documents| == 0 then StoreOutcome([], None)
    else Upload(index.value.upsert, BatchesFrom(Vectors(embeddings.value, md5, documents), BatchSize, 0))
  }

  function Prepend(done: seq<seq<VectorRecord>>, rest: StoreOutcome): StoreOutcome {
    StoreOutcome(done + rest.committed, rest.failure)
  }

  /** The first loop of `store_documents`: one record per document, in order. */
  method BuildVectors(embed: Embedder, md5: Md5, documents: seq<Document>) returns (vectors: seq<VectorRecord>)
    requires forall d | d in documents :: HasTextSource(d)
    ensures vectors == Vectors(embed, md5, documents)
  {
    vectors := [];
    for k := 0 to |documents|
      invariant |vectors| == k
      invariant forall j | 0 <= j < k :: vectors[j] == MakeRecord(embed, md5, documents[j])
    {
      var doc := documents[k];
      assert doc in documents;
      var digest := CreateDocumentHash(md5, doc.pageContent);
      var vectorId := VectorId(doc.metadata["source"].s, ChunkIdText(doc.metadata), digest);
      var metadata := map["source" := doc.metadata["source"].s,
                          "chunk_id" := ChunkIdText(doc.metadata),
                          "content_preview" := ContentPreview(doc.pageContent)];
      var record := VectorRecord(vectorId, embed.embedQuery(doc.pageContent), metadata);
      assert record == MakeRecord(embed, md5, doc);
      vectors := vectors + [record];
    }
  }

  /** Uploading the batches from `i` on: the batch at `i` first, then the rest unless it failed. */
  lemma UploadStep(upsert: seq<VectorRecord> -> Option<string>, vectors: seq<VectorRecord>, i: nat)
    requires i < |vectors|
    ensures var batch := vectors[i..Min(i + BatchSize, |vectors|)];
      Upload(upsert, BatchesFrom(vectors, BatchSize, i))
        == if upsert(batch).Some? then StoreOutcome([], upsert(batch))
           else Prepend([batch], Upload(upsert, BatchesFrom(vectors, BatchSize, i + BatchSize)))
  {
    var batch := vectors[i..Min(i + BatchSize, |vectors|)];
    var rest := BatchesFrom(vectors, BatchSize, i + BatchSize);
    assert BatchesFrom(vectors, BatchSize, i) == [batch] + rest;
    assert ([batch] + rest)[0] == batch && ([batch] + rest)[1..] == rest;
  }

  /** The loop invariant of `UpsertInBatches` is kept by one step that fails or commits a batch. */
  lemma UploadAdvance(upsert: seq<VectorRecord> -> Option<string>, vectors: seq<VectorRecord>, i: nat,
                      committed: seq<seq<VectorRecord>>)
    requires i < |vectors|
    ensures var batch := vectors[i..Min(i + BatchSize, |vectors|)];
      && (upsert(batch).Some? ==>
            Prepend(committed, Upload(upsert, BatchesFrom(vectors, BatchSize, i))) == StoreOutcome(committed, upsert(batch)))
      && (upsert(batch).None? ==>
            Prepend(committed, Upload(upsert, BatchesFrom(vectors, BatchSize, i)))
            == Prepend(committed + [batch], Upload(upsert, BatchesFrom(vectors, BatchSize, i + BatchSize))))
  {
    var batch := vectors[i..Min(i + BatchSize, |vectors|)];
    UploadStep(upsert, vectors, i);
    if upsert(batch).Some? {
      assert committed + [] == committed;
    } else {
      var later := Upload(upsert, BatchesFrom(vectors, BatchSize, i + BatchSize)).committed;
      assert committed + ([batch] + later) == (committed + [batch]) + later;
    }
  }

  /**
   * The batch loop of `store_documents`: `upsert(vectors[i:i+100])` for
   * `i` in `range(0, len(vectors), 100)`, stopping at the first that raises.
   */
  method UpsertInBatches(upsert: seq<VectorRecord> -> Option<string>, vectors: seq<VectorRecord>)
    returns (outcome: StoreOutcome)
    ensures outcome == Upload(upsert, BatchesFrom(vectors, BatchSize, 0))
  {
    ghost var total := Upload(upsert, BatchesFrom(vectors, BatchSize, 0));
    var committed := [];
    var i := 0;
    assert [] + total.committed == total.committed;
    while i < |vectors|
      invariant total == Prepend(committed, Upload(upsert, BatchesFrom(vectors, BatchSize, i)))
      decreases |vectors| - i
    {
      var batch := vectors[i..Min(i + BatchSize, |vectors|)];
      UploadAdvance(upsert, vectors, i, committed);
      var failure := upsert(batch);
      if failure.Some? {
        return StoreOutcome(committed, failure);
      }
      committed := committed + [batch];
      i := i + BatchSize;
    }
    assert committed + [] == committed;
    outcome := StoreOutcome(committed, None);
  }

  method StoreDocuments(index: Option<VectorIndex>, embeddings: Option<Embedder>,
                        documents: seq<Document>, md5: Md5)
    returns (outcome: StoreOutcome)
    requires forall d | d in documents :: HasTextSource(d)
    ensures outcome == StoreResult(index, embeddings, documents, md5)
    ensures index.None? || embeddings.None? || documents == [] ==> outcome == StoreOutcome([], None)
  {
    if index.None? || embeddings.None? || |documents| == 0 {
      return StoreOutcome([], None);
    }
    var vectors := BuildVectors(embeddings.value, md5, documents);
    outcome := UpsertInBatches(index.value.upsert, vectors);
  }

  /** Documents that reach `store_documents` from a reload always carry a text `source`. */
  lemma ReloadedChunksHaveSource(directory: string, listing: Option<seq<string>>,
                                 extractText: string -> string, clock: nat -> string, split: TextSplitter)
    ensures forall d | d in Chunks(ProcessedDocuments(directory, listing, extractText, clock), split) ::
              HasTextSource(d)
  {
    var docs := ProcessedDocuments(directory, listing, extractText, clock);
    ProcessedDocumentsExactly(directory, listing, extractText, clock);
    ChunkDocumentsProperties(docs, split);
    var chunks := Chunks(docs, split);
    var origins := Origins(docs, split);
    forall d | d in chunks ensures HasTextSource(d) {
      var k :| 0 <= k < |chunks| && chunks[k] == d;
      assert docs[origins[k].doc] in docs;
    }
  }
}
