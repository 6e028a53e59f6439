/** backend/routes/chat.js: `/upload` (extension dispatch, File and Document records),
    `/query` (the grounding state machine) and `/chat/:fileId` (history read). */
module ChatRoutes {
  import opened Wrappers
  import opened Seqs
  import opened Text
  import opened ChatModel
  import opened Store

  /** The hard-coded owner of every record the routes create or read. */
  const DemoUser := "demo-user"

  /* ---------------- extension dispatch ---------------- */

  datatype Format = Pdf | Txt | Json | Csv | Xlsx | Docx

  function TrimTrailingSlashes(s: string): (r: string)
    ensures |r| <= |s| && r == s[..|r|]
    ensures r == [] || r[|r| - 1] != '/'
  {
    if |s| > 0 && s[|s| - 1] == '/' then TrimTrailingSlashes(s[..|s| - 1]) else s
  }

  /** The last path segment. */
  function AfterLastSlash(s: string): (r: string)
    ensures '/' !in r
    decreases |s|
  {
    if '/' !in s then s else AfterLastSlash(s[FirstIndex(s, '/') + 1..])
  }

  /** The index of the last `c` in `s`. */
  function LastIndex(s: string, c: char): (i: nat)
    requires c in s
    ensures i < |s| && s[i] == c && c !in s[i + 1..]
  {
    if s[|s| - 1] == c then |s| - 1
    else
      assert c in s[..|s| - 1] by { var k :| 0 <= k < |s| && s[k] == c; assert s[..|s| - 1][k] == c; }
      LastIndex(s[..|s| - 1], c)
  }

  /** Node's `path.extname`: from the last dot of the last segment to its end, except
      that a segment whose only dot is its first character, and the segment "..",
      have no extension. */
  function ExtName(name: string): (r: string)
    ensures r == "" || (r[0] == '.' && '/' !in r && '.' !in r[1..])
  {
    var base := AfterLastSlash(TrimTrailingSlashes(name));
    if '.' !in base then ""
    else
      var d := LastIndex(base, '.');
      if d == 0 || base == ".." then ""
      else
        assert base[d..][1..] == base[d + 1..];
        base[d..]
  }

  /** `path.extname(originalname).toLowerCase()`. */
  function Extension(name: string): (r: string)
    ensures |r| == |ExtName(name)|
    ensures r == "" || r[0] == '.'
    ensures forall i :: 0 <= i < |r| ==> !IsAsciiUpper(r[i])
  {
    ToLower(ExtName(name))
  }

  /** The parsing branch an extension selects; `None` is the "Unsupported file type" branch. */
  function FormatOf(ext: string): (f: Option<Format>)
    ensures f.Some? <==> ext in {".pdf", ".txt", ".json", ".csv", ".xlsx", ".docx"}
  {
    if ext == ".pdf" then Some(Pdf)
    else if ext == ".txt" then Some(Txt)
    else if ext == ".json" then Some(Json)
    else if ext == ".csv" then Some(Csv)
    else if ext == ".xlsx" then Some(Xlsx)
    else if ext == ".docx" then Some(Docx)
    else None
  }

  function ExtensionOf(f: Format): string {
    match f
    case Pdf => ".pdf"
    case Txt => ".txt"
    case Json => ".json"
    case Csv => ".csv"
    case Xlsx => ".xlsx"
    case Docx => ".docx"
  }

  lemma FormatRoundTrip(f: Format)
    ensures FormatOf(ExtensionOf(f)) == Some(f)
  {
  }

  /** A plain file name `stem.ext` has extension `.ext`. */
  lemma ExtNameOfStem(stem: string, ext: string)
    requires '/' !in stem && '/' !in ext && '.' !in ext
    requires stem != "" && stem + "." + ext != ".."
    ensures ExtName(stem + "." + ext) == "." + ext
  {
    var name := stem + "." + ext;
    assert '/' !in name;
    assert name == [] || name[|name| - 1] != '/' by {
      if |ext| > 0 { assert name[|name| - 1] == ext[|ext| - 1]; } else { assert name[|name| - 1] == '.'; }
    }
    assert TrimTrailingSlashes(name) == name;
    assert name[|stem|] == '.';
    var d := LastIndex(name, '.');
    assert name[d..] == "." + ext;
  }

  /** A name whose only dot is its first character (".txt") has no extension. */
  lemma DotFileHasNoExtension(rest: string)
    requires '/' !in rest && '.' !in rest && rest != ""
    ensures ExtName("." + rest) == ""
  {
    var name := "." + rest;
    assert '/' !in name;
    assert name[|name| - 1] == rest[|rest| - 1];
    assert TrimTrailingSlashes(name) == name;
    var d := LastIndex(name, '.');
  }

  /** Upper-case extensions are accepted because the extension is lowercased first. */
  lemma UpperCasePdfAccepted()
    ensures Extension("REPORT.PDF") == ".pdf"
    ensures FormatOf(Extension("REPORT.PDF")) == Some(Pdf)
  {
    ExtNameOfStem("REPORT", "PDF");
    assert "REPORT" + "." + "PDF" == "REPORT.PDF";
  }

  /* ---------------- upload ---------------- */

  /** One file of the multipart request, as multer describes it. */
  datatype UploadedFile = UploadedFile(originalName: string, storedName: string, path: string)

  datatype UploadReply =
    | NoFiles          // 400 "No files uploaded"
    | Unsupported      // 400 "Unsupported file type. Allowed types: PDF, TXT, JSON, CSV, XLSX, DOCX"
    | Uploaded(totalFiles: nat)  // 200 "All files uploaded and processed successfully"
    | UploadFailed     // 500 "Upload failed": a parser, the embedding service or a create threw

  /** The parts of the database an upload writes. */
  datatype Ingest = Ingest(files: seq<FileRecord>, docs: seq<DocRecord>, nextId: nat, clock: nat)

  function PathsOf(uploads: seq<UploadedFile>): set<string> {
    set i | 0 <= i < |uploads| :: uploads[i].path
  }

  /** The inner loop: one embedding and one Document per chunk, in order; `false` when a
      step threw (the embedding service failed, or `Document.create` rejected an empty chunk). */
  function IngestChunks(docs: seq<DocRecord>, fileId: ObjectId, chunks: seq<string>,
                        embed: string -> Option<Vector>): (r: (seq<DocRecord>, bool))
    ensures |docs| <= |r.0| <= |docs| + |chunks|
    ensures r.1 <==> |r.0| == |docs| + |chunks| && forall k :: 0 <= k < |chunks| ==> embed(chunks[k]).Some? && chunks[k] != ""
    decreases |chunks|
  {
    if chunks == [] then (docs, true)
    else match embed(chunks[0])
      case None => (docs, false)
      case Some(v) =>
        if chunks[0] == "" then (docs, false)
        else IngestChunks(docs + [DocRecord(DemoUser, fileId, chunks[0], v)], fileId, chunks[1..], embed)
  }

  /** One file of the outer loop, from state `st`: its File record, its parse, and its
      chunks' Documents. `None` in the second component means the loop goes on;
      otherwise the request ends with that reply. `parse` stands for reading and parsing
      a file of the given format, `split` for the RecursiveCharacterTextSplitter (chunk
      size 1000, overlap 200), `embed` for the embedding service. */
  function IngestFile(st: Ingest, u: UploadedFile,
                      parse: (Format, string) -> Option<string>, split: string -> seq<string>,
                      embed: string -> Option<Vector>): (r: (Ingest, Option<UploadReply>))
    ensures r.1 != Some(NoFiles) && (r.1.Some? ==> !r.1.value.Uploaded?)
    ensures r.1.None? ==> FormatOf(Extension(u.originalName)).Some?
  {
    if !FileFieldsPresent(DemoUser, u.originalName, u.storedName, u.path) then (st, Some(UploadFailed))
    else
      var rec := FileRecord(st.nextId, DemoUser, u.originalName, u.storedName, u.path, st.clock);
      var next := Ingest(st.files + [rec], st.docs, st.nextId + 1, st.clock + 1);
      match FormatOf(Extension(u.originalName))
      case None => (next, Some(Unsupported))
      case Some(format) =>
        match parse(format, u.path)
        case None => (next, Some(UploadFailed))
        case Some(text) =>
          var (docs', ok) := IngestChunks(next.docs, rec.id, split(text), embed);
          (next.(docs := docs'), if ok then None else Some(UploadFailed))
  }

  /** The outer loop over the uploaded files, with `saved` files fully processed so far. */
  function IngestFiles(st: Ingest, uploads: seq<UploadedFile>, saved: nat,
                       parse: (Format, string) -> Option<string>, split: string -> seq<string>,
                       embed: string -> Option<Vector>): (r: (Ingest, UploadReply))
    ensures r.1 != NoFiles
    decreases |uploads|
  {
    if uploads == [] then (st, Uploaded(saved))
    else
      var (next, stop) := IngestFile(st, uploads[0], parse, split, embed);
      if stop.Some? then (next, stop.value)
      else IngestFiles(next, uploads[1..], saved + 1, parse, split, embed)
  }

  /** Every Document an upload creates for a file carries that file's id and the
      chunk's text, in chunk order; a complete pass stores every chunk. */
  lemma {:induction false} IngestChunksShape(docs: seq<DocRecord>, fileId: ObjectId, chunks: seq<string>,
                                             embed: string -> Option<Vector>)
    ensures var (out, ok) := IngestChunks(docs, fileId, chunks, embed);
      && |docs| <= |out| <= |docs| + |chunks| && out[..|docs|] == docs
      && (forall k :: |docs| <= k < |out| ==>
            out[k].userId == DemoUser && out[k].fileId == fileId && out[k].chunkText == chunks[k - |docs|])
      && (ok ==> |out| == |docs| + |chunks|)
    decreases |chunks|
  {
    if chunks != [] && embed(chunks[0]).Some? && chunks[0] != "" {
      var d := DocRecord(DemoUser, fileId, chunks[0], embed(chunks[0]).value);
      var docs' := docs + [d];
      IngestChunksShape(docs', fileId, chunks[1..], embed);
      var out := IngestChunks(docs', fileId, chunks[1..], embed).0;
      assert out[..|docs'|] == docs';
      assert out[..|docs|] == docs'[..|docs|];
      forall k | |docs| <= k < |out|
        ensures out[k].userId == DemoUser && out[k].fileId == fileId && out[k].chunkText == chunks[k - |docs|]
      {
        if k == |docs| {
          assert out[k] == out[..|docs'|][k];
        }
      }
    }
  }

  /** One file: at most one File record, for that upload, appended; fragments only appended. */
  lemma IngestFileShape(st: Ingest, u: UploadedFile, parse: (Format, string) -> Option<string>,
                        split: string -> seq<string>, embed: string -> Option<Vector>)
    ensures var (out, stop) := IngestFile(st, u, parse, split, embed);
      && (out.files == st.files || out.files == st.files + [FileRecord(st.nextId, DemoUser, u.originalName, u.storedName, u.path, st.clock)])
      && |st.docs| <= |out.docs| && out.docs[..|st.docs|] == st.docs
      && (stop.None? ==> |out.files| == |st.files| + 1 && FormatOf(Extension(u.originalName)).Some?)
      && (stop == Some(Unsupported) <==>
            FileFieldsPresent(DemoUser, u.originalName, u.storedName, u.path) && FormatOf(Extension(u.originalName)).None?)
      && (stop.Some? ==> stop.value == Unsupported || stop.value == UploadFailed)
      && (|out.docs| > |st.docs| ==>
            && out.files == st.files + [FileRecord(st.nextId, DemoUser, u.originalName, u.storedName, u.path, st.clock)]
            && forall k :: |st.docs| <= k < |out.docs| ==> out.docs[k].fileId == st.nextId && out.docs[k].userId == DemoUser)
  {
    if FileFieldsPresent(DemoUser, u.originalName, u.storedName, u.path) {
      match FormatOf(Extension(u.originalName))
      case None =>
      case Some(format) =>
        match parse(format, u.path)
        case None =>
        case Some(text) =>
          IngestChunksShape(st.docs, st.nextId, split(text), embed);
    }
  }

  /** The File collection only grows, by one record per processed upload, in upload
      order, and no fragment already stored is removed. */
  lemma {:induction false} IngestFilesGrow(st: Ingest, uploads: seq<UploadedFile>, saved: nat,
                                           parse: (Format, string) -> Option<string>, split: string -> seq<string>,
                                           embed: string -> Option<Vector>)
    ensures var out := IngestFiles(st, uploads, saved, parse, split, embed).0;
      && |st.files| <= |out.files| <= |st.files| + |uploads| && out.files[..|st.files|] == st.files
      && (forall k :: |st.files| <= k < |out.files| ==>
            out.files[k].userId == DemoUser && out.files[k].originalName == uploads[k - |st.files|].originalName)
      && |st.docs| <= |out.docs| && out.docs[..|st.docs|] == st.docs
    decreases |uploads|
  {
    if uploads != [] {
      var step := IngestFile(st, uploads[0], parse, split, embed);
      var next := step.0;
      IngestFileShape(st, uploads[0], parse, split, embed);
      if step.1.None? {
        var out := IngestFiles(next, uploads[1..], saved + 1, parse, split, embed).0;
        assert IngestFiles(st, uploads, saved, parse, split, embed).0 == out;
        IngestFilesGrow(next, uploads[1..], saved + 1, parse, split, embed);
        assert out.files[..|st.files|] == out.files[..|next.files|][..|st.files|];
        assert out.docs[..|st.docs|] == out.docs[..|next.docs|][..|st.docs|];
        forall k | |st.files| <= k < |out.files|
          ensures out.files[k].userId == DemoUser && out.files[k].originalName == uploads[k - |st.files|].originalName
        {
          if k == |st.files| {
            assert out.files[k] == out.files[..|next.files|][k];
          } else {
            assert uploads[k - |st.files|] == uploads[1..][k - |next.files|];
          }
        }
      } else {
        assert IngestFiles(st, uploads, saved, parse, split, embed).0 == next;
      }
    }
  }

  /** Every fragment an upload request stores belongs to the demo user and to a File
      record created by the same request. */
  lemma IngestFileDocsOwned(st: Ingest, u: UploadedFile, parse: (Format, string) -> Option<string>,
                             split: string -> seq<string>, embed: string -> Option<Vector>)
    ensures var out := IngestFile(st, u, parse, split, embed).0;
      && |st.files| <= |out.files| && out.files[..|st.files|] == st.files
      && |st.docs| <= |out.docs| && out.docs[..|st.docs|] == st.docs
      && forall k :: |st.docs| <= k < |out.docs| ==>
           out.docs[k].userId == DemoUser
           && exists m :: |st.files| <= m < |out.files| && out.files[m].id == out.docs[k].fileId
  {
    var out := IngestFile(st, u, parse, split, embed).0;
    IngestFileShape(st, u, parse, split, embed);
    if |out.docs| > |st.docs| {
      assert out.files[|st.files|].id == st.nextId;
    }
  }

  /** Every fragment an upload request stores belongs to the demo user and to a File
      record created by the same request. */
  lemma {:induction false} IngestFilesDocsOwned(st: Ingest, uploads: seq<UploadedFile>, saved: nat,
                                                parse: (Format, string) -> Option<string>, split: string -> seq<string>,
                                                embed: string -> Option<Vector>)
    ensures var out := IngestFiles(st, uploads, saved, parse, split, embed).0;
      forall k :: |st.docs| <= k < |out.docs| ==>
        out.docs[k].userId == DemoUser
        && exists m :: |st.files| <= m < |out.files| && out.files[m].id == out.docs[k].fileId
    decreases |uploads|
  {
    if uploads != [] {
      var step := IngestFile(st, uploads[0], parse, split, embed);
      var next := step.0;
      IngestFileDocsOwned(st, uploads[0], parse, split, embed);
      if step.1.None? {
        var out := IngestFiles(next, uploads[1..], saved + 1, parse, split, embed).0;
        assert IngestFiles(st, uploads, saved, parse, split, embed).0 == out;
        IngestFilesGrow(next, uploads[1..], saved + 1, parse, split, embed);
        IngestFilesDocsOwned(next, uploads[1..], saved + 1, parse, split, embed);
        forall k | |st.docs| <= k < |out.docs|
          ensures out.docs[k].userId == DemoUser
          ensures exists m :: |st.files| <= m < |out.files| && out.files[m].id == out.docs[k].fileId
        {
          if k < |next.docs| {
            assert out.docs[k] == out.docs[..|next.docs|][k] == next.docs[k];
            var m :| |st.files| <= m < |next.files| && next.files[m].id == next.docs[k].fileId;
            assert out.files[m] == out.files[..|next.files|][m];
          }
        }
      } else {
        assert IngestFiles(st, uploads, saved, parse, split, embed).0 == next;
      }
    }
  }

  /** Upload never answers "no files" once there are some; a 200 reply counts every
      upload, all of them with an accepted extension and each with its File record. */
  lemma {:induction false} IngestFilesReply(st: Ingest, uploads: seq<UploadedFile>, saved: nat,
                                            parse: (Format, string) -> Option<string>, split: string -> seq<string>,
                                            embed: string -> Option<Vector>)
    ensures var (out, reply) := IngestFiles(st, uploads, saved, parse, split, embed);
      && reply != NoFiles
      && (reply.Uploaded? ==>
            reply.totalFiles == saved + |uploads| && |out.files| == |st.files| + |uploads|
            && forall k :: 0 <= k < |uploads| ==> FormatOf(Extension(uploads[k].originalName)).Some?)
    decreases |uploads|
  {
    if uploads != [] {
      var step := IngestFile(st, uploads[0], parse, split, embed);
      IngestFileShape(st, uploads[0], parse, split, embed);
      if step.1.None? {
        var r := IngestFiles(step.0, uploads[1..], saved + 1, parse, split, embed);
        assert IngestFiles(st, uploads, saved, parse, split, embed) == r;
        IngestFilesReply(step.0, uploads[1..], saved + 1, parse, split, embed);
        if r.1.Uploaded? {
          forall k | 0 <= k < |uploads| ensures FormatOf(Extension(uploads[k].originalName)).Some? {
            if k > 0 { assert uploads[k] == uploads[1..][k - 1]; }
          }
        }
      } else {
        assert IngestFiles(st, uploads, saved, parse, split, embed) == (step.0, step.1.value);
      }
    }
  }

  /** An upload with an unsupported extension ends the request with 400 right after its
      File record is created: the files after it are never looked at. */
  lemma UnsupportedStopsUpload(st: Ingest, u: UploadedFile, rest: seq<UploadedFile>, saved: nat,
                               parse: (Format, string) -> Option<string>, split: string -> seq<string>,
                               embed: string -> Option<Vector>)
    requires FileFieldsPresent(DemoUser, u.originalName, u.storedName, u.path)
    requires FormatOf(Extension(u.originalName)).None?
    ensures IngestFiles(st, [u] + rest, saved, parse, split, embed)
         == (Ingest(st.files + [FileRecord(st.nextId, DemoUser, u.originalName, u.storedName, u.path, st.clock)],
                    st.docs, st.nextId + 1, st.clock + 1), Unsupported)
  {
    assert ([u] + rest)[0] == u;
  }

  function Snapshot(db: Database): Ingest
    reads db
  {
    Ingest(db.files, db.docs, db.nextId, db.clock)
  }

  /** The inner loop of `/upload`: embed each chunk and store it as a Document. */
  method StoreChunks(db: Database, fileId: ObjectId, chunks: seq<string>, embed: string -> Option<Vector>)
    returns (ok: bool)
    requires db.Valid()
    modifies db
    ensures db.Valid()
    ensures (db.docs, ok) == IngestChunks(old(db.docs), fileId, chunks, embed)
    ensures db.files == old(db.files) && db.chats == old(db.chats) && db.users == old(db.users)
    ensures db.blobs == old(db.blobs) && db.clock == old(db.clock) && db.nextId == old(db.nextId)
  {
    var j := 0;
    while j < |chunks|
      invariant 0 <= j <= |chunks|
      invariant db.Valid()
      invariant IngestChunks(db.docs, fileId, chunks[j..], embed) == IngestChunks(old(db.docs), fileId, chunks, embed)
      invariant db.files == old(db.files) && db.chats == old(db.chats) && db.users == old(db.users)
      invariant db.blobs == old(db.blobs) && db.clock == old(db.clock) && db.nextId == old(db.nextId)
    {
      assert chunks[j..][0] == chunks[j] && chunks[j..][1..] == chunks[j + 1..];
      var v := embed(chunks[j]);
      if v.None? {
        return false;
      }
      ok := db.CreateDocument(DocRecord(DemoUser, fileId, chunks[j], v.value));
      if !ok {
        return;
      }
      j := j + 1;
    }
    assert chunks[j..] == [];
    ok := true;
  }

  /** One iteration of the outer loop of `/upload`. */
  method StoreFile(db: Database, u: UploadedFile, parse: (Format, string) -> Option<string>,
                   split: string -> seq<string>, embed: string -> Option<Vector>)
    returns (stop: Option<UploadReply>)
    requires db.Valid()
    modifies db
    ensures db.Valid()
    ensures (Snapshot(db), stop) == IngestFile(old(Snapshot(db)), u, parse, split, embed)
    ensures db.chats == old(db.chats) && db.users == old(db.users) && db.blobs == old(db.blobs)
  {
    ghost var st := Snapshot(db);
    var created := db.CreateFile(DemoUser, u.originalName, u.storedName, u.path);
    if created.None? {
      assert Snapshot(db) == st;
      return Some(UploadFailed);
    }
    var rec := created.value;
    ghost var next := Snapshot(db);
    assert next == Ingest(st.files + [rec], st.docs, st.nextId + 1, st.clock + 1);
    var format := FormatOf(Extension(u.originalName));
    if format.None? {
      return Some(Unsupported);
    }
    var text := parse(format.value, u.path);
    if text.None? {
      return Some(UploadFailed);
    }
    var ok := StoreChunks(db, rec.id, split(text.value), embed);
    assert Snapshot(db) == next.(docs := db.docs);
    stop := if ok then None else Some(UploadFailed);
  }

  /** `POST /upload`. */
  method Upload(db: Database, uploads: seq<UploadedFile>, parse: (Format, string) -> Option<string>,
                split: string -> seq<string>, embed: string -> Option<Vector>)
    returns (reply: UploadReply)
    requires db.Valid()
    modifies db
    ensures db.Valid()
    ensures uploads == [] ==> reply == NoFiles && Snapshot(db) == old(Snapshot(db))
    ensures uploads != [] ==>
      (Snapshot(db), reply) == IngestFiles(old(Snapshot(db)), uploads, 0, parse, split, embed)
    ensures db.chats == old(db.chats) && db.users == old(db.users)
    ensures db.blobs == old(db.blobs) + PathsOf(uploads)
  {
    db.StoreBlobs(PathsOf(uploads));
    if uploads == [] {
      return NoFiles;
    }
    ghost var start := old(Snapshot(db));
    var k := 0;
    while k < |uploads|
      invariant 0 <= k <= |uploads|
      invariant db.Valid()
      invariant IngestFiles(Snapshot(db), uploads[k..], k, parse, split, embed)
             == IngestFiles(start, uploads, 0, parse, split, embed)
      invariant db.chats == old(db.chats) && db.users == old(db.users)
      invariant db.blobs == old(db.blobs) + PathsOf(uploads)
    {
      assert uploads[k..][0] == uploads[k] && uploads[k..][1..] == uploads[k + 1..];
      var stop := StoreFile(db, uploads[k], parse, split, embed);
      if stop.Some? {
        return stop.value;
      }
      k := k + 1;
    }
    assert uploads[k..] == [];
    reply := Uploaded(k);
  }

  /* ---------------- query ---------------- */

  /** The answer the route stores when retrieval finds nothing. */
  const Sentinel := "I don't know based on the provided document."

  /** The lowercase phrase whose presence marks an LLM answer as ungrounded. */
  const FallbackPhrase := "i don't know based on the provided document"

  /** The `limit` of the vector search stage. */
  const SearchLimit := 5

  /** How the LLM call ended. */
  datatype LlmReply = Threw | Content(text: string)

  datatype QueryReply =
    | BadRequest   // 400 "Both question and fileId are required"
    | Answered(found: bool, echo: Option<string>, answer: string)  // 200 { found, question?, answer }
    | QueryFailed  // 500 "RAG query failed"

  /** The documents a ranking names, in ranking order; indexes outside the collection name nothing. */
  function Candidates(docs: seq<DocRecord>, ranked: seq<nat>): (r: seq<DocRecord>)
    ensures forall i :: 0 <= i < |r| ==> r[i] in docs
    ensures forall i :: 0 <= i < |ranked| && ranked[i] < |docs| ==> docs[ranked[i]] in r
    ensures forall i :: 0 <= i < |r| ==> exists j :: 0 <= j < |ranked| && ranked[j] < |docs| && docs[ranked[j]] == r[i]
  {
    if ranked == [] then []
    else (if ranked[0] < |docs| then [docs[ranked[0]]] else []) + Candidates(docs, ranked[1..])
  }

  function OfFile(fileId: ObjectId): DocRecord -> bool {
    (d: DocRecord) => d.fileId == fileId
  }

  /** The `$vectorSearch` stage: the ranking (nearest first) restricted by
      `filter: { fileId }` and cut to `limit: 5`. */
  function Search(docs: seq<DocRecord>, ranked: seq<nat>, fileId: ObjectId): (r: seq<DocRecord>)
    ensures |r| <= SearchLimit
    ensures forall i :: 0 <= i < |r| ==> r[i] in docs && r[i].fileId == fileId
  {
    Take(Filter(Candidates(docs, ranked), OfFile(fileId)), SearchLimit)
  }

  /** The search comes back empty exactly when no ranked document belongs to the file. */
  lemma SearchEmptyIff(docs: seq<DocRecord>, ranked: seq<nat>, fileId: ObjectId)
    ensures Search(docs, ranked, fileId) == [] <==>
      forall i :: 0 <= i < |ranked| && ranked[i] < |docs| ==> docs[ranked[i]].fileId != fileId
  {
    var c := Candidates(docs, ranked);
    var f := Filter(c, OfFile(fileId));
    if Search(docs, ranked, fileId) == [] {
      assert f == [];
      forall i | 0 <= i < |ranked| && ranked[i] < |docs| ensures docs[ranked[i]].fileId != fileId {
        var d := docs[ranked[i]];
        assert d in c;
        var j :| 0 <= j < |c| && c[j] == d;
      }
    } else {
      assert f != [] && f[0] in c && f[0].fileId == fileId;
      var k :| 0 <= k < |c| && c[k] == f[0];
      var j :| 0 <= j < |ranked| && ranked[j] < |docs| && docs[ranked[j]] == c[k];
    }
  }

  /** Once a file's documents are deleted, no ranking finds anything for it. */
  lemma SearchAfterDelete(docs: seq<DocRecord>, ranked: seq<nat>, fileId: ObjectId)
    ensures Search(DocsWithout(docs, fileId), ranked, fileId) == []
  {
    var c := Candidates(DocsWithout(docs, fileId), ranked);
    FilterNone(c, OfFile(fileId));
  }

  /** One context entry: `Chunk ${i + 1}:\n${doc.chunkText}` with `k = i + 1`. */
  function ChunkLabel(k: nat, text: string): string {
    "Chunk " + NatToString(k) + ":\n" + text
  }

  function ContextParts(hits: seq<DocRecord>): seq<string> {
    seq(|hits|, i requires 0 <= i < |hits| => ChunkLabel(i + 1, hits[i].chunkText))
  }

  /** The numbered chunks joined by blank lines. */
  function BuildContext(hits: seq<DocRecord>): (r: string)
    ensures r == "" <==> hits == []
  {
    var parts := ContextParts(hits);
    assert hits != [] ==> |parts[0]| > 0;
    Join(parts, "\n\n")
  }

  /** Every retrieved chunk appears in the context, under its 1-based number. */
  lemma ContextHoldsEveryChunk(hits: seq<DocRecord>, i: nat)
    requires i < |hits|
    ensures Contains(BuildContext(hits), ChunkLabel(i + 1, hits[i].chunkText))
    ensures Contains(BuildContext(hits), hits[i].chunkText)
  {
    var entry := ChunkLabel(i + 1, hits[i].chunkText);
    JoinHoldsParts(ContextParts(hits), "\n\n", i);
    OccursInConcat("Chunk " + NatToString(i + 1) + ":\n", hits[i].chunkText);
    OccursAtContains(entry, hits[i].chunkText, |"Chunk " + NatToString(i + 1) + ":\n"|);
    ContainsTrans(BuildContext(hits), entry, hits[i].chunkText);
  }

  /** The context lists the results in their ranked order: entry `i` lies wholly
      before entry `j` whenever `i < j`. */
  lemma ContextInResultOrder(hits: seq<DocRecord>, i: nat, j: nat)
    requires i < j < |hits|
    ensures var parts, ctx := ContextParts(hits), BuildContext(hits);
      && OccursAt(ctx, ChunkLabel(i + 1, hits[i].chunkText), JoinOffset(parts, "\n\n", i))
      && OccursAt(ctx, ChunkLabel(j + 1, hits[j].chunkText), JoinOffset(parts, "\n\n", j))
      && JoinOffset(parts, "\n\n", i) + |parts[i]| < JoinOffset(parts, "\n\n", j)
  {
    var parts := ContextParts(hits);
    JoinHoldsParts(parts, "\n\n", i);
    JoinHoldsParts(parts, "\n\n", j);
    JoinOffsetOrder(parts, "\n\n", i, j);
  }

  /** A single hit gives a context of exactly one labelled chunk. */
  lemma ContextOfOneHit(d: DocRecord)
    ensures BuildContext([d]) == "Chunk 1:\n" + d.chunkText
  {
    assert ContextParts([d]) == [ChunkLabel(1, d.chunkText)];
    assert NatToString(1) == "1";
  }

  const PromptHead := "\nYou are a strict Retrieval-Augmented Generation (RAG) assistant.\n\nRULES:\n- Answer using ONLY the information in the CONTEXT.\n- You may paraphrase or summarize.\n- If the context partially answers the question, respond with the closest possible answer.\n- If completely unrelated, say:\n  \"I don't know based on the provided document.\"\n\nCONTEXT:\n"

  /** The prompt template filled with the context and the question. */
  function RagPrompt(context: string, question: string): (r: string)
    ensures |r| == |PromptHead| + |context| + |question| + 22
    ensures r[..|PromptHead|] == PromptHead
  {
    PromptHead + context + "\n\nQUESTION:\n" + question + "\n\nANSWER:\n"
  }

  /** The prompt carries the context and the question verbatim, the context before the question. */
  lemma PromptGrounded(context: string, question: string)
    ensures OccursAt(RagPrompt(context, question), context, |PromptHead|)
    ensures OccursAt(RagPrompt(context, question), question, |PromptHead| + |context| + 12)
  {
    var p := RagPrompt(context, question);
    assert |"\n\nQUESTION:\n"| == 12;
    assert p[|PromptHead|..|PromptHead| + |context|] == context;
    assert p[|PromptHead| + |context| + 12..|PromptHead| + |context| + 12 + |question|] == question;
  }

  /** `aiAnswer.toLowerCase().includes("i don't know based on the provided document")`. */
  predicate IsFallback(answer: string)
    ensures IsFallback(answer) ==> |answer| >= |FallbackPhrase|
  {
    Contains(ToLower(answer), FallbackPhrase)
  }

  /** The phrase is recognised anywhere in the answer and in any letter case. */
  lemma FallbackAnywhere(before: string, phrase: string, after: string)
    requires ToLower(phrase) == FallbackPhrase
    ensures IsFallback(before + phrase + after)
  {
    var a := before + phrase + after;
    ToLowerSlice(a, |before|, |before| + |phrase|);
    assert a[|before|..|before| + |phrase|] == phrase;
    OccursAtContains(ToLower(a), FallbackPhrase, |before|);
  }

  lemma SentinelWords()
    ensures Sentinel == "I don't" + " know based on" + " the provided" + " document" + "."
  {
  }

  lemma PhraseWords()
    ensures FallbackPhrase == "i don't" + " know based on" + " the provided" + " document"
  {
  }

  lemma LowerSentinelWords()
    ensures ToLower("I don't" + " know based on" + " the provided" + " document" + ".")
         == "i don't" + " know based on" + " the provided" + " document" + "."
  {
    var a, b, c, d, e := "I don't", " know based on", " the provided", " document", ".";
    ToLowerConcat(a, b);
    ToLowerConcat(a + b, c);
    ToLowerConcat(a + b + c, d);
    ToLowerConcat(a + b + c + d, e);
    assert ToLower(a) == "i don't" by { assert ToLower(a)[0] == 'i'; }
    assert ToLower(b) == b;
    assert ToLower(c) == c;
    assert ToLower(d) == d;
    assert ToLower(e) == e;
  }

  /** The stored sentinel is itself recognised as an ungrounded answer. */
  lemma SentinelIsFallback()
    ensures IsFallback(Sentinel)
  {
    SentinelWords();
    PhraseWords();
    LowerSentinelWords();
    var p := "i don't" + " know based on" + " the provided" + " document";
    assert (p + ".")[..|p|] == p;
    assert OccursAt(ToLower(Sentinel), FallbackPhrase, 0);
    OccursAtContains(ToLower(Sentinel), FallbackPhrase, 0);
  }

  /** The record `Chat.create` makes of the user's question. */
  function UserMessage(question: string, fileId: ObjectId, now: nat): Chat {
    Chat(DemoUser, fileId, User, true, question, now)
  }

  function AiMessage(answer: string, fileId: ObjectId, found: bool, now: nat): Chat {
    Chat(DemoUser, fileId, Ai, found, answer, now)
  }

  /** What one `/query` request does: its reply, the prompt sent to the LLM (`None`
      when the LLM is not called) and the Chat records appended, from time `now`.
      `retrieve` stands for embedding the question and ranking the documents
      (`None` when either throws). */
  datatype Turn = Turn(reply: QueryReply, prompt: Option<string>, saved: seq<Chat>)

  function QueryTurn(docs: seq<DocRecord>, question: string, fileId: Option<ObjectId>, now: nat,
                     retrieve: string -> Option<seq<nat>>, llm: string -> LlmReply): (t: Turn)
    ensures t.reply.BadRequest? <==> question == "" || fileId.None?
    ensures t.reply.BadRequest? ==> t.saved == [] && t.prompt.None?
    ensures !t.reply.BadRequest? ==> |t.saved| >= 1 && t.saved[0] == UserMessage(question, fileId.value, now)
    ensures t.reply.Answered? <==> |t.saved| == 2
    ensures t.reply.Answered? ==>
      t.saved[1] == AiMessage(t.reply.answer, fileId.value, t.reply.found, now + 1)
    ensures t.reply.Answered? ==> t.reply.found == !IsFallback(t.reply.answer)
    ensures t.reply.Answered? && t.reply.found ==> t.reply.echo == Some(question)
    ensures |t.saved| <= 2
    ensures t.prompt.Some? ==>
      (retrieve(question).Some? && fileId.Some? &&
       var hits := Search(docs, retrieve(question).value, fileId.value);
       hits != [] && t.prompt.value == RagPrompt(BuildContext(hits), question))
  {
    if question == "" || fileId.None? then Turn(BadRequest, None, [])
    else
      var fid := fileId.value;
      var user := UserMessage(question, fid, now);
      match retrieve(question)
      case None => Turn(QueryFailed, None, [user])
      case Some(ranked) =>
        var rest := AnswerTurn(Search(docs, ranked, fid), question, fid, now + 1, llm);
        Turn(rest.reply, rest.prompt, [user] + rest.saved)
  }

  /** The part of `/query` after the search, given its results `hits`: the sentinel when
      there are none, otherwise the LLM's answer; `saved` holds only the AI record,
      stamped `now`. */
  function AnswerTurn(hits: seq<DocRecord>, question: string, fid: ObjectId, now: nat,
                      llm: string -> LlmReply): (a: Turn)
    ensures a.reply.Answered? <==> |a.saved| == 1
    ensures |a.saved| <= 1 && !a.reply.BadRequest?
    ensures a.reply.Answered? ==>
      a.saved[0] == AiMessage(a.reply.answer, fid, a.reply.found, now)
      && a.reply.found == !IsFallback(a.reply.answer)
    ensures a.reply.Answered? && a.reply.found ==> a.reply.echo == Some(question)
    ensures a.prompt.Some? <==> hits != []
    ensures a.prompt.Some? ==> a.prompt.value == RagPrompt(BuildContext(hits), question)
    ensures hits != [] && llm(RagPrompt(BuildContext(hits), question)).Content? ==>
      var answer := llm(RagPrompt(BuildContext(hits), question)).text;
      answer != "" ==> a.reply == Answered(!IsFallback(answer), Some(question), answer)
  {
    if hits == [] then
      SentinelIsFallback();
      Turn(Answered(false, None, Sentinel), None, [AiMessage(Sentinel, fid, false, now)])
    else
      var prompt := RagPrompt(BuildContext(hits), question);
      match llm(prompt)
      case Threw => Turn(QueryFailed, Some(prompt), [])
      case Content(answer) =>
        if answer == "" then Turn(QueryFailed, Some(prompt), [])
        else
          var found := !IsFallback(answer);
          Turn(Answered(found, Some(question), answer), Some(prompt), [AiMessage(answer, fid, found, now)])
  }

  /** A valid query fails with 500 exactly when retrieval throws, or when the LLM, given
      a non-empty context, throws or answers with the empty string (which `Chat.create`
      rejects); the user's record is then the only one stored. */
  lemma QueryFails(docs: seq<DocRecord>, question: string, fileId: ObjectId, now: nat,
                   retrieve: string -> Option<seq<nat>>, llm: string -> LlmReply)
    requires question != ""
    ensures var t := QueryTurn(docs, question, Some(fileId), now, retrieve, llm);
      t.reply.QueryFailed? <==>
        retrieve(question).None? ||
        (var hits := Search(docs, retrieve(question).value, fileId);
         var reply := llm(RagPrompt(BuildContext(hits), question));
         hits != [] && (reply.Threw? || reply.text == ""))
    ensures var t := QueryTurn(docs, question, Some(fileId), now, retrieve, llm);
      t.reply.QueryFailed? ==> t.saved == [UserMessage(question, fileId, now)]
  {
  }

  /** When the search finds fragments, the LLM is sent the grounded prompt, and a
      non-empty answer from it is what the reply carries, together with the question,
      and what the AI record stores after the user's record. */
  lemma QueryAnswersFromLlm(docs: seq<DocRecord>, question: string, fileId: ObjectId, now: nat,
                            retrieve: string -> Option<seq<nat>>, llm: string -> LlmReply)
    requires question != "" && retrieve(question).Some?
    requires Search(docs, retrieve(question).value, fileId) != []
    ensures var hits := Search(docs, retrieve(question).value, fileId);
      var prompt := RagPrompt(BuildContext(hits), question);
      var t := QueryTurn(docs, question, Some(fileId), now, retrieve, llm);
      && t.prompt == Some(prompt)
      && (llm(prompt).Content? && llm(prompt).text != "" ==>
            var answer := llm(prompt).text;
            && t.reply == Answered(!IsFallback(answer), Some(question), answer)
            && t.saved == [UserMessage(question, fileId, now), AiMessage(answer, fileId, !IsFallback(answer), now + 1)])
  {
    var hits := Search(docs, retrieve(question).value, fileId);
    var a := AnswerTurn(hits, question, fileId, now + 1, llm);
    assert QueryTurn(docs, question, Some(fileId), now, retrieve, llm)
        == Turn(a.reply, a.prompt, [UserMessage(question, fileId, now)] + a.saved);
  }

  /** The records a query stores belong to the demo user and the file, and are stamped
      one after the other from `now`. */
  lemma QueryRecordsStamped(docs: seq<DocRecord>, question: string, fileId: ObjectId, now: nat,
                            retrieve: string -> Option<seq<nat>>, llm: string -> LlmReply)
    ensures var t := QueryTurn(docs, question, Some(fileId), now, retrieve, llm);
      forall i :: 0 <= i < |t.saved| ==>
        t.saved[i].userId == DemoUser && t.saved[i].fileId == fileId && t.saved[i].createdAt == now + i
  {
    if question != "" {
      match retrieve(question)
      case None =>
      case Some(ranked) =>
        var a := AnswerTurn(Search(docs, ranked, fileId), question, fileId, now + 1, llm);
        assert QueryTurn(docs, question, Some(fileId), now, retrieve, llm).saved
            == [UserMessage(question, fileId, now)] + a.saved;
    }
  }

  /** With no retrieved fragment the LLM is not consulted: the turn is the same whatever
      the LLM would say, and it stores the sentinel as an ungrounded answer. */
  lemma NoHitsNoLlm(docs: seq<DocRecord>, question: string, fileId: ObjectId, now: nat,
                    retrieve: string -> Option<seq<nat>>, llm1: string -> LlmReply, llm2: string -> LlmReply)
    requires question != "" && retrieve(question).Some?
    requires Search(docs, retrieve(question).value, fileId) == []
    ensures QueryTurn(docs, question, Some(fileId), now, retrieve, llm1)
         == QueryTurn(docs, question, Some(fileId), now, retrieve, llm2)
    ensures QueryTurn(docs, question, Some(fileId), now, retrieve, llm1)
         == Turn(Answered(false, None, Sentinel), None,
                 [UserMessage(question, fileId, now), AiMessage(Sentinel, fileId, false, now + 1)])
  {
  }

  /** After a file's fragments are deleted, every question about it gets the sentinel. */
  lemma QueryAfterDelete(docs: seq<DocRecord>, question: string, fileId: ObjectId, now: nat,
                         retrieve: string -> Option<seq<nat>>, llm: string -> LlmReply)
    requires question != "" && retrieve(question).Some?
    ensures QueryTurn(DocsWithout(docs, fileId), question, Some(fileId), now, retrieve, llm).reply
         == Answered(false, None, Sentinel)
  {
    SearchAfterDelete(docs, retrieve(question).value, fileId);
  }

  /** Every fragment the LLM sees belongs to the requested file and is quoted in the prompt. */
  lemma PromptQuotesOnlyTheFile(docs: seq<DocRecord>, question: string, fileId: ObjectId, now: nat,
                                retrieve: string -> Option<seq<nat>>, llm: string -> LlmReply, i: nat)
    requires question != "" && retrieve(question).Some?
    requires i < |Search(docs, retrieve(question).value, fileId)|
    ensures var t := QueryTurn(docs, question, Some(fileId), now, retrieve, llm);
            var d := Search(docs, retrieve(question).value, fileId)[i];
            t.prompt.Some? && d in docs && d.fileId == fileId && Contains(t.prompt.value, d.chunkText)
  {
    var hits := Search(docs, retrieve(question).value, fileId);
    var context := BuildContext(hits);
    ContextHoldsEveryChunk(hits, i);
    PromptGrounded(context, question);
    OccursAtContains(RagPrompt(context, question), context, |PromptHead|);
    ContainsTrans(RagPrompt(context, question), context, hits[i].chunkText);
  }

  /** `POST /query`. */
  method Query(db: Database, question: string, fileId: Option<ObjectId>,
               retrieve: string -> Option<seq<nat>>, llm: string -> LlmReply)
    returns (reply: QueryReply, sent: Option<string>)
    requires db.Valid()
    modifies db
    ensures db.Valid()
    ensures var t := QueryTurn(old(db.docs), question, fileId, old(db.clock), retrieve, llm);
            reply == t.reply && sent == t.prompt
            && db.chats == old(db.chats) + t.saved && db.clock == old(db.clock) + |t.saved|
    ensures db.files == old(db.files) && db.docs == old(db.docs) && db.users == old(db.users)
    ensures db.blobs == old(db.blobs) && db.nextId == old(db.nextId)
  {
    if question == "" || fileId.None? {
      return BadRequest, None;
    }
    var fid := fileId.value;
    var created := db.CreateChat(ChatFields(Some(DemoUser), Some(fid), Some("user"), None, Some(question)));
    var ranked := retrieve(question);
    if ranked.None? {
      return QueryFailed, None;
    }
    var hits := Search(db.docs, ranked.value, fid);
    ghost var mid := db.chats;
    reply, sent := AnswerQuery(db, question, fid, hits, llm);
    assert db.chats == old(db.chats) + [created.value] + (db.chats[|mid|..]);
  }

  /** The handler from the empty-results test on: it stores what `AnswerTurn` computes. */
  method AnswerQuery(db: Database, question: string, fid: ObjectId, hits: seq<DocRecord>, llm: string -> LlmReply)
    returns (reply: QueryReply, sent: Option<string>)
    requires db.Valid()
    modifies db
    ensures db.Valid()
    ensures var a := AnswerTurn(hits, question, fid, old(db.clock), llm);
            reply == a.reply && sent == a.prompt
            && db.chats == old(db.chats) + a.saved && db.clock == old(db.clock) + |a.saved|
    ensures db.files == old(db.files) && db.docs == old(db.docs) && db.users == old(db.users)
    ensures db.blobs == old(db.blobs) && db.nextId == old(db.nextId)
  {
    var created;
    if hits == [] {
      created := db.CreateChat(ChatFields(Some(DemoUser), Some(fid), Some("ai"), Some(false), Some(Sentinel)));
      return Answered(false, None, Sentinel), None;
    }
    var prompt := RagPrompt(BuildContext(hits), question);
    sent := Some(prompt);
    var response := llm(prompt);
    if response.Threw? {
      return QueryFailed, sent;
    }
    var answer := response.text;
    var isFallback := IsFallback(answer);
    created := db.CreateChat(ChatFields(Some(DemoUser), Some(fid), Some("ai"), Some(!isFallback), Some(answer)));
    if created.Err? {
      return QueryFailed, sent;
    }
    reply := Answered(!isFallback, Some(question), answer);
  }

  /* ---------------- history ---------------- */

  /** The query `{ userId, fileId }`. */
  function Scope(userId: string, fileId: ObjectId): Chat -> bool {
    (c: Chat) => c.userId == userId && c.fileId == fileId
  }

  /** `Chat.find({ userId, fileId }).sort({ createdAt: 1 })`. */
  function HistoryRecords(chats: seq<Chat>, fileId: ObjectId): (r: seq<Chat>)
    ensures SortedBy(r, CreatedAt)
    ensures multiset(r) == multiset(Filter(chats, Scope(DemoUser, fileId)))
    ensures forall i :: 0 <= i < |r| ==> r[i] in chats && r[i].userId == DemoUser && r[i].fileId == fileId
    ensures forall i :: 0 <= i < |chats| && chats[i].userId == DemoUser && chats[i].fileId == fileId ==> chats[i] in r
  {
    var scoped := Filter(chats, Scope(DemoUser, fileId));
    var r := SortBy(scoped, CreatedAt);
    assert forall i :: 0 <= i < |r| ==> r[i] in multiset(scoped);
    assert forall i :: 0 <= i < |chats| && Scope(DemoUser, fileId)(chats[i]) ==> chats[i] in multiset(r);
    r
  }

  /** The fields `.select("role content isFound")` keeps. */
  datatype HistoryItem = HistoryItem(role: Role, content: string, isFound: bool)

  /** `GET /chat/:fileId`: the response body. */
  function History(chats: seq<Chat>, fileId: ObjectId): (r: seq<HistoryItem>)
    ensures |r| == |HistoryRecords(chats, fileId)|
    ensures forall i :: 0 <= i < |r| ==>
      var c := HistoryRecords(chats, fileId)[i];
      r[i] == HistoryItem(c.role, c.content, c.isFound)
  {
    var recs := HistoryRecords(chats, fileId);
    seq(|recs|, i requires 0 <= i < |recs| => HistoryItem(recs[i].role, recs[i].content, recs[i].isFound))
  }

  /** When the store is in creation order (as `Database.Valid` keeps it), the history is
      the file's records in store order. */
  lemma HistoryInCreationOrder(chats: seq<Chat>, fileId: ObjectId)
    requires StrictlyIncreasing(chats, CreatedAt)
    ensures HistoryRecords(chats, fileId) == Filter(chats, Scope(DemoUser, fileId))
  {
    FilterKeepsOrder(chats, Scope(DemoUser, fileId), CreatedAt);
    SortBySorted(Filter(chats, Scope(DemoUser, fileId)), CreatedAt);
  }

  /** Records of the demo user for one file, stamped after everything already stored,
      extend that file's history at its end. */
  lemma HistoryAfterAppend(chats: seq<Chat>, saved: seq<Chat>, fileId: ObjectId, now: nat)
    requires StrictlyIncreasing(chats, CreatedAt)
    requires forall i :: 0 <= i < |chats| ==> chats[i].createdAt < now
    requires forall i :: 0 <= i < |saved| ==>
      saved[i].userId == DemoUser && saved[i].fileId == fileId && saved[i].createdAt == now + i
    ensures HistoryRecords(chats + saved, fileId) == HistoryRecords(chats, fileId) + saved
  {
    assert StrictlyIncreasing(saved, CreatedAt);
    IncreasingAppend(chats, saved, CreatedAt);
    HistoryInCreationOrder(chats + saved, fileId);
    HistoryInCreationOrder(chats, fileId);
    FilterAppend(chats, saved, Scope(DemoUser, fileId));
    FilterAll(saved, Scope(DemoUser, fileId));
  }

  /** A query extends that file's history by exactly the records it stored, at the end. */
  lemma HistoryAfterQuery(chats: seq<Chat>, docs: seq<DocRecord>, question: string, fileId: ObjectId,
                          now: nat, retrieve: string -> Option<seq<nat>>, llm: string -> LlmReply)
    requires StrictlyIncreasing(chats, CreatedAt)
    requires forall i :: 0 <= i < |chats| ==> chats[i].createdAt < now
    ensures var t := QueryTurn(docs, question, Some(fileId), now, retrieve, llm);
            HistoryRecords(chats + t.saved, fileId) == HistoryRecords(chats, fileId) + t.saved
  {
    var t := QueryTurn(docs, question, Some(fileId), now, retrieve, llm);
    QueryRecordsStamped(docs, question, fileId, now, retrieve, llm);
    HistoryAfterAppend(chats, t.saved, fileId, now);
  }

  /** Deleting a file empties its history. */
  lemma HistoryAfterDelete(chats: seq<Chat>, fileId: ObjectId)
    ensures HistoryRecords(ChatsWithout(chats, fileId), fileId) == []
  {
    FilterNone(ChatsWithout(chats, fileId), Scope(DemoUser, fileId));
  }

  /** Deleting one file leaves every other file's history as it was. */
  lemma HistoryOfOtherFile(chats: seq<Chat>, deleted: ObjectId, fileId: ObjectId)
    requires deleted != fileId
    ensures HistoryRecords(ChatsWithout(chats, deleted), fileId) == HistoryRecords(chats, fileId)
  {
    FilterNarrow(chats, ChatNotOf(deleted), Scope(DemoUser, fileId));
  }
}
