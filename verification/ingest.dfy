/** The document-ingestion endpoint (`pages/api/train.ts`).

    A request names uploaded PDFs. The handler reads each one page by page into
    a single text, has the splitter cut the texts into chunks, and upserts the
    chunks into the namespaced vector index in batches of 50, one batch after
    another, writing a progress percentage before each batch. Whatever
    happens, the last thing it writes is the frame `[DONE]`.

    PDF.js, the splitter, Pinecone and the embedding model are the fields of a
    `Services` record. What the handler does to them and to the HTTP response
    is recorded, in order, as a trace of events. */
module Ingest {
  import opened Common

  /** Chunks embedded and upserted per call to the vector index. */
  const BatchSize: nat := 50

  /** Body of `res.status(400).json(…)` when no file is named. */
  const ParameterError: string := "Parameter Error"

  datatype FileRef = FileRef(filename: string)

  /** The request body. `files` is None when the field is missing. */
  datatype TrainRequest = TrainRequest(
    files: Option<seq<FileRef>>,
    chunkSize: int,          // `settings.chunkSize`
    namespace: string,
    key: string)             // the embedding model's API key

  /** A PDF as PDF.js reads it: for each page, the `str` of each text item. */
  datatype Pdf = Pdf(pages: seq<seq<string>>)

  /** A LangChain document: text plus the `source` metadata field. */
  datatype Document = Document(pageContent: string, source: string)

  /** The external services. A failing call yields its serialised error. */
  datatype Services = Services(
    fetch: string -> Result<Pdf, string>,                // `getDocument(url)` with all its pages
    split: (seq<Document>, int, int) -> Result<seq<Document>, string>,  // building the splitter for
                                                         // (chunkSize, chunkOverlap), then `splitDocuments`
    initIndex: Option<string>,                           // `pinecone.init`: Some(error) when it fails
    embeddings: string -> Option<string>,                // `new OpenAIEmbeddings` for a key: Some(error) when it throws
    upsert: (seq<Document>, string, string) -> Option<string>)  // embed + upsert (batch, namespace, key)

  datatype Call =
    | FetchPdf(path: string)
    | Split(docs: seq<Document>, chunkSize: int, chunkOverlap: int)
    | InitIndex
    | Upsert(batch: seq<Document>, namespace: string, key: string)

  /** A body frame written with `res.write`. */
  datatype Frame = Progress(percent: nat) | ErrorBody(serialised: string) | Done

  /** An operation on the HTTP response object. */
  datatype ResOp =
    | SetStatus(code: int)      // `res.status(code)`
    | WriteJson(body: string)   // `res.json(body)`, which also ends the response
    | WriteHead(code: int)      // `res.writeHead(code, headers)`
    | Write(frame: Frame)       // `res.write(frame)`
    | End                       // `res.end()`

  datatype Event = Respond(op: ResOp) | Invoke(call: Call)

  /** Storage location of an uploaded PDF. */
  function FilePath(cfg: Deployment, f: FileRef): string
  {
    cfg.s3Path + cfg.pdfPath + f.filename
  }

  /** The text of each page: its items joined with ''. */
  function PageTexts(pages: seq<seq<string>>): seq<string>
  {
    seq(|pages|, j requires 0 <= j < |pages| => Concat(pages[j]))
  }

  /** The text of a whole PDF: its pages' texts joined with ''. */
  function PdfText(pdf: Pdf): string
  {
    Concat(PageTexts(pdf.pages))
  }

  /** No separator is inserted between items or between pages: a PDF's text is
      the plain concatenation of all its items, page after page. */
  lemma {:induction false} PdfTextIsItemConcatenation(pages: seq<seq<string>>)
    ensures PdfText(Pdf(pages)) == Concat(Flatten(pages))
  {
    if pages != [] {
      PdfTextIsItemConcatenation(pages[1..]);
      assert PageTexts(pages) == [Concat(pages[0])] + PageTexts(pages[1..]);
      ConcatAppend([Concat(pages[0])], PageTexts(pages[1..]));
      ConcatAppend(pages[0], Flatten(pages[1..]));
      assert Concat([Concat(pages[0])]) == Concat([]) + Concat(pages[0]);
    }
  }

  // ---------------------------------------------------------------------------
  // Reading the files

  /** Fetching and reading the files in request order, up to the first that
      fails: the calls made, and the documents read or the error. */
  function ReadFiles(files: seq<FileRef>, cfg: Deployment, fetch: string -> Result<Pdf, string>)
    : (seq<Event>, Result<seq<Document>, string>)
  {
    if files == [] then ([], Success([]))
    else
      var (events, read) := ReadFiles(files[..|files| - 1], cfg, fetch);
      if read.Failure? then (events, read)
      else
        var f := files[|files| - 1];
        var path := FilePath(cfg, f);
        match fetch(path)
        case Failure(e) => (events + [Invoke(FetchPdf(path))], Failure(e))
        case Success(pdf) =>
          (events + [Invoke(FetchPdf(path))], Success(read.value + [Document(PdfText(pdf), f.filename)]))
  }

  /** When every file can be fetched: one document per file, in request order,
      whose text is the PDF's text and whose source is the file name; the
      files were fetched in request order from their storage paths. */
  lemma {:induction false} ReadFilesAllFetched(files: seq<FileRef>, cfg: Deployment, fetch: string -> Result<Pdf, string>)
    requires forall k :: 0 <= k < |files| ==> fetch(FilePath(cfg, files[k])).Success?
    ensures var (events, read) := ReadFiles(files, cfg, fetch);
      && read.Success?
      && |read.value| == |events| == |files|
      && (forall k :: 0 <= k < |files| ==> events[k] == Invoke(FetchPdf(FilePath(cfg, files[k]))))
      && (forall k :: 0 <= k < |files| ==>
            read.value[k] == Document(PdfText(fetch(FilePath(cfg, files[k])).value), files[k].filename))
  {
    if files != [] {
      ReadFilesAllFetched(files[..|files| - 1], cfg, fetch);
    }
  }

  /** A file that cannot be fetched stops the reading: the files after it are
      never fetched, and its error is the result. */
  lemma {:induction false} ReadFilesStopsAtFailure(files: seq<FileRef>, cfg: Deployment,
                                                   fetch: string -> Result<Pdf, string>, m: nat)
    requires m < |files|
    requires forall k :: 0 <= k < m ==> fetch(FilePath(cfg, files[k])).Success?
    requires fetch(FilePath(cfg, files[m])).Failure?
    ensures var (events, read) := ReadFiles(files, cfg, fetch);
      && read == Failure(fetch(FilePath(cfg, files[m])).error)
      && |events| == m + 1
      && (forall k :: 0 <= k <= m ==> events[k] == Invoke(FetchPdf(FilePath(cfg, files[k]))))
  {
    var prefix := files[..|files| - 1];
    assert forall k :: 0 <= k < |prefix| ==> prefix[k] == files[k];
    if m == |files| - 1 {
      ReadFilesAllFetched(prefix, cfg, fetch);
    } else {
      ReadFilesStopsAtFailure(prefix, cfg, fetch, m);
    }
  }

  /** Reading a non-empty list starts by fetching its first file. */
  lemma {:induction false} ReadFilesFetchesFirst(files: seq<FileRef>, cfg: Deployment,
                                                 fetch: string -> Result<Pdf, string>)
    requires files != []
    ensures |ReadFiles(files, cfg, fetch).0| > 0
    ensures ReadFiles(files, cfg, fetch).0[0] == Invoke(FetchPdf(FilePath(cfg, files[0])))
  {
    var prefix := files[..|files| - 1];
    if prefix != [] {
      ReadFilesFetchesFirst(prefix, cfg, fetch);
      assert prefix[0] == files[0];
    }
  }

  /** Once reading a prefix has failed, reading more files changes nothing. */
  lemma {:induction false} ReadFilesFailureSticks(files: seq<FileRef>, i: nat, cfg: Deployment,
                                                  fetch: string -> Result<Pdf, string>)
    requires i <= |files|
    requires ReadFiles(files[..i], cfg, fetch).1.Failure?
    ensures ReadFiles(files, cfg, fetch) == ReadFiles(files[..i], cfg, fetch)
    decreases |files| - i
  {
    if i < |files| {
      assert files[..|files| - 1][..i] == files[..i];
      ReadFilesFailureSticks(files[..|files| - 1], i, cfg, fetch);
    } else {
      assert files[..i] == files;
    }
  }

  // ---------------------------------------------------------------------------
  // Batches and progress

  /** `docs.slice(i, i + 50)`. */
  function BatchAt(docs: seq<Document>, i: nat): seq<Document>
    requires i < |docs|
  {
    docs[i..Min(i + BatchSize, |docs|)]
  }

  /** The batches starting at i, i + 50, i + 100, … */
  function BatchesFrom(docs: seq<Document>, i: nat): seq<seq<Document>>
    decreases |docs| - i
  {
    if i >= |docs| then [] else [BatchAt(docs, i)] + BatchesFrom(docs, i + BatchSize)
  }

  /** Together the batches give the documents back, in order. */
  lemma {:induction false} BatchesPartition(docs: seq<Document>, i: nat)
    requires i <= |docs|
    ensures Flatten(BatchesFrom(docs, i)) == docs[i..]
    decreases |docs| - i
  {
    var bs := BatchesFrom(docs, i);
    if i == |docs| {
      assert bs == [];
    } else if i + BatchSize >= |docs| {
      assert BatchesFrom(docs, i + BatchSize) == [];
      assert BatchAt(docs, i) == docs[i..];
      assert bs == [docs[i..]];
      assert Flatten(bs) == docs[i..] + Flatten([]);
    } else {
      var rest := BatchesFrom(docs, i + BatchSize);
      BatchesPartition(docs, i + BatchSize);
      assert Flatten(bs) == BatchAt(docs, i) + Flatten(rest);
      assert docs[i..] == docs[i..i + BatchSize] + docs[i + BatchSize..];
    }
  }

  /** The k-th batch is the slice of the documents at i + 50k: non-empty, and
      of exactly 50 documents unless it is the last. */
  lemma {:induction false} BatchShape(docs: seq<Document>, i: nat, k: nat)
    requires k < |BatchesFrom(docs, i)|
    ensures var bs := BatchesFrom(docs, i);
      && i + BatchSize * k < |docs|
      && bs[k] == docs[i + BatchSize * k .. Min(i + BatchSize * k + BatchSize, |docs|)]
      && |bs[k]| > 0
      && (k < |bs| - 1 ==> |bs[k]| == BatchSize)
    decreases k
  {
    var bs := BatchesFrom(docs, i);
    var rest := BatchesFrom(docs, i + BatchSize);
    assert bs == [BatchAt(docs, i)] + rest;
    if k > 0 {
      BatchShape(docs, i + BatchSize, k - 1);
      assert i + BatchSize + BatchSize * (k - 1) == i + BatchSize * k;
      assert bs[k] == rest[k - 1];
    } else if rest != [] {
      assert i + BatchSize < |docs|;
    }
  }

  /** There are ceil(n / 50) batches of n documents. */
  lemma {:induction false} BatchCount(docs: seq<Document>, i: nat)
    requires i <= |docs|
    ensures |BatchesFrom(docs, i)| == CeilDiv(|docs| - i, BatchSize)
    decreases |docs| - i
  {
    var m := |docs| - i;
    if m == 0 {
      CeilDivUnique(0, BatchSize, 0);
    } else if m <= BatchSize {
      assert BatchesFrom(docs, i + BatchSize) == [];
      CeilDivUnique(m, BatchSize, 1);
    } else {
      BatchCount(docs, i + BatchSize);
      var c := CeilDiv(m - BatchSize, BatchSize);
      CeilDivUnique(m, BatchSize, c + 1);
    }
  }

  /** The least multiplier reaching a is `CeilDiv(a, n)`. */
  lemma CeilDivUnique(a: nat, n: nat, c: nat)
    requires n > 0 && c * n >= a && (c == 0 || (c - 1) * n < a)
    ensures CeilDiv(a, n) == c
  {
    CeilDivLeast(a, n, c);
    if c > 0 {
      MulCancel(c - 1, CeilDiv(a, n), n);
    }
  }

  /** The percentage written before the batch that starts at i:
      `30 + Math.ceil(70 * i / docs.length)`. */
  function ProgressAt(i: nat, n: nat): nat
    requires n > 0
  {
    30 + CeilDiv(70 * i, n)
  }

  /** Every percentage written before a batch is between 30 and 100; the one
      before the first batch is 30. */
  lemma ProgressBounds(i: nat, n: nat)
    requires i < n
    ensures 30 <= ProgressAt(i, n) <= 100
    ensures i == 0 ==> ProgressAt(i, n) == 30
  {
    CeilDivLeast(70 * i, n, 70);
    if i == 0 {
      CeilDivLeast(0, n, 0);
    }
  }

  /** Cancelling a positive factor from a strict inequality. */
  lemma MulCancel(a: int, b: int, n: int)
    requires n > 0 && a * n < b * n
    ensures a < b
  {
  }

  /** `CeilDiv(a, n)` is below every multiplier q with q * n >= a. */
  lemma CeilDivLeast(a: nat, n: nat, q: nat)
    requires n > 0 && q * n >= a
    ensures CeilDiv(a, n) <= q
  {
    var c := CeilDiv(a, n);
    if c > 0 {
      MulCancel(c - 1, q, n);
    }
  }

  /** Percentages never decrease from one batch to a later one. */
  lemma ProgressMonotone(i: nat, j: nat, n: nat)
    requires i <= j && n > 0
    ensures ProgressAt(i, n) <= ProgressAt(j, n)
  {
    CeilDivLeast(70 * i, n, CeilDiv(70 * j, n));
  }

  /** The batch loop from the batch starting at i on: a progress frame, then the
      upsert, for each batch, stopping at the first upsert that fails. Yields
      the events and the error that stopped it, if any. */
  function BatchPhase(docs: seq<Document>, i: nat, namespace: string, key: string,
                      upsert: (seq<Document>, string, string) -> Option<string>)
    : (seq<Event>, Option<string>)
    decreases |docs| - i
  {
    if i >= |docs| then ([], None)
    else
      var batch := BatchAt(docs, i);
      var step := [Respond(Write(Progress(ProgressAt(i, |docs|)))), Invoke(Upsert(batch, namespace, key))];
      match upsert(batch, namespace, key)
      case Some(e) => (step, Some(e))
      case None =>
        var (events, err) := BatchPhase(docs, i + BatchSize, namespace, key, upsert);
        (step + events, err)
  }

  /** The batch loop writes, for each of the first m batches, the progress
      frame of that batch and then upserts exactly that batch, the batches
      being taken in order. */
  lemma {:induction false} BatchPhaseEvents(docs: seq<Document>, i: nat, namespace: string, key: string,
                                            upsert: (seq<Document>, string, string) -> Option<string>)
    ensures var events := BatchPhase(docs, i, namespace, key, upsert).0;
      var bs := BatchesFrom(docs, i);
      && |events| % 2 == 0 && |events| / 2 <= |bs|
      && (forall k :: 0 <= k < |events| / 2 ==>
            && i + BatchSize * k < |docs|
            && events[2 * k] == Respond(Write(Progress(ProgressAt(i + BatchSize * k, |docs|))))
            && events[2 * k + 1] == Invoke(Upsert(bs[k], namespace, key)))
    decreases |docs| - i
  {
    BatchPhaseLength(docs, i, namespace, key, upsert);
    var events := BatchPhase(docs, i, namespace, key, upsert).0;
    forall k | 0 <= k < |events| / 2
      ensures i + BatchSize * k < |docs|
      ensures events[2 * k] == Respond(Write(Progress(ProgressAt(i + BatchSize * k, |docs|))))
      ensures events[2 * k + 1] == Invoke(Upsert(BatchesFrom(docs, i)[k], namespace, key))
    {
      BatchPhaseEventAt(docs, i, namespace, key, upsert, k);
    }
  }

  /** Two events per attempted batch, and no more batches attempted than
      there are. */
  lemma {:induction false} BatchPhaseLength(docs: seq<Document>, i: nat, namespace: string, key: string,
                                            upsert: (seq<Document>, string, string) -> Option<string>)
    ensures var events := BatchPhase(docs, i, namespace, key, upsert).0;
      |events| % 2 == 0 && |events| / 2 <= |BatchesFrom(docs, i)|
    decreases |docs| - i
  {
    if i < |docs| {
      BatchPhaseStep(docs, i, namespace, key, upsert);
      assert |BatchesFrom(docs, i)| == 1 + |BatchesFrom(docs, i + BatchSize)|;
      if upsert(BatchAt(docs, i), namespace, key).None? {
        BatchPhaseLength(docs, i + BatchSize, namespace, key, upsert);
        var n := |BatchPhase(docs, i + BatchSize, namespace, key, upsert).0|;
        assert |BatchPhase(docs, i, namespace, key, upsert).0| == n + 2;
        var h := n / 2;
        assert n == 2 * h;
        assert (n + 2) / 2 == h + 1 && (n + 2) % 2 == 0;
      }
    }
  }

  /** The k-th attempted batch: its progress frame and its upsert. */
  lemma {:induction false} BatchPhaseEventAt(docs: seq<Document>, i: nat, namespace: string, key: string,
                                             upsert: (seq<Document>, string, string) -> Option<string>, k: nat)
    requires 2 * k + 1 < |BatchPhase(docs, i, namespace, key, upsert).0|
    ensures var events := BatchPhase(docs, i, namespace, key, upsert).0;
      var bs := BatchesFrom(docs, i);
      && i + BatchSize * k < |docs|
      && k < |bs|
      && events[2 * k] == Respond(Write(Progress(ProgressAt(i + BatchSize * k, |docs|))))
      && events[2 * k + 1] == Invoke(Upsert(bs[k], namespace, key))
    decreases k
  {
    var batch := BatchAt(docs, i);
    BatchPhaseStep(docs, i, namespace, key, upsert);
    var bs := BatchesFrom(docs, i);
    var rest := BatchesFrom(docs, i + BatchSize);
    assert bs == [batch] + rest;
    if k > 0 {
      var next := BatchPhase(docs, i + BatchSize, namespace, key, upsert).0;
      BatchPhaseEventAt(docs, i + BatchSize, namespace, key, upsert, k - 1);
      assert i + BatchSize + BatchSize * (k - 1) == i + BatchSize * k;
      assert BatchPhase(docs, i, namespace, key, upsert).0[2 * k] == next[2 * (k - 1)];
      assert BatchPhase(docs, i, namespace, key, upsert).0[2 * k + 1] == next[2 * (k - 1) + 1];
      assert bs[k] == rest[k - 1];
    }
  }

  /** With m batches attempted, the batches before the m-th all succeeded; the
      loop stopped early exactly when a batch failed, and then with that
      batch's error; otherwise it attempted every batch. */
  lemma {:induction false} BatchPhaseStops(docs: seq<Document>, i: nat, namespace: string, key: string,
                                           upsert: (seq<Document>, string, string) -> Option<string>)
    ensures var r := BatchPhase(docs, i, namespace, key, upsert);
      var bs := BatchesFrom(docs, i);
      var m := |r.0| / 2;
      && m <= |bs|
      && (forall k :: 0 <= k < m - 1 ==> upsert(bs[k], namespace, key).None?)
      && (r.1.Some? ==> 0 < m && upsert(bs[m - 1], namespace, key) == r.1)
      && (r.1.None? ==> m == |bs| && forall k :: 0 <= k < |bs| ==> upsert(bs[k], namespace, key).None?)
    decreases |docs| - i
  {
    BatchPhaseLength(docs, i, namespace, key, upsert);
    if i < |docs| {
      var batch := BatchAt(docs, i);
      var bs := BatchesFrom(docs, i);
      var rest := BatchesFrom(docs, i + BatchSize);
      assert bs == [batch] + rest;
      BatchPhaseStep(docs, i, namespace, key, upsert);
      if upsert(batch, namespace, key).None? {
        BatchPhaseStops(docs, i + BatchSize, namespace, key, upsert);
        BatchPhaseLength(docs, i + BatchSize, namespace, key, upsert);
        var r := BatchPhase(docs, i, namespace, key, upsert);
        var r' := BatchPhase(docs, i + BatchSize, namespace, key, upsert);
        assert |r.0| == 2 + |r'.0| && r.1 == r'.1;
        var h := |r'.0| / 2;
        assert |r'.0| == 2 * h;
        assert |r.0| / 2 == h + 1;
        forall k | 1 <= k < |bs|
          ensures bs[k] == rest[k - 1]
        {
        }
      }
    }
  }

  // ---------------------------------------------------------------------------
  // The whole handler

  /** The writes of the `finally` block. */
  const Finally: seq<Event> := [Respond(Write(Done)), Respond(End)]

  /** The writes of the `catch` block for an error e. */
  function Caught(e: string): seq<Event>
  {
    [Respond(SetStatus(500)), Respond(Write(ErrorBody(e)))]
  }

  /** The exception thrown after the split and before the header, if any:
      `pinecone.init`'s, or else the embeddings constructor's. */
  function SetupError(req: TrainRequest, svc: Services): (r: Option<string>)
    ensures r.None? <==> svc.initIndex.None? && svc.embeddings(req.key).None?
    ensures svc.initIndex.Some? ==> r == svc.initIndex
  {
    if svc.initIndex.Some? then svc.initIndex else svc.embeddings(req.key)
  }

  /** Reference semantics of the handler: everything it does, in order. */
  function TrainSpec(req: TrainRequest, cfg: Deployment, svc: Services): seq<Event>
  {
    if req.files.None? || req.files.value == [] then
      [Respond(SetStatus(400)), Respond(WriteJson(ParameterError))] + Finally
    else
      var (fetches, read) := ReadFiles(req.files.value, cfg, svc.fetch);
      match read
      case Failure(e) => fetches + Caught(e) + Finally
      case Success(rawDocs) =>
        match svc.split(rawDocs, req.chunkSize, cfg.chunkOverlap)
        case Failure(e) => fetches + [Invoke(Split(rawDocs, req.chunkSize, cfg.chunkOverlap))] + Caught(e) + Finally
        case Success(docs) =>
        var prepared := fetches + [Invoke(Split(rawDocs, req.chunkSize, cfg.chunkOverlap)), Invoke(InitIndex)];
        match SetupError(req, svc)
        case Some(e) => prepared + Caught(e) + Finally
        case None =>
          var (batches, err) := BatchPhase(docs, 0, req.namespace, req.key, svc.upsert);
          prepared + [Respond(WriteHead(200))] + batches
          + (if err.Some? then Caught(err.value) else []) + Finally
  }

  /** The page loop: each page's items joined onto the text, page by page. */
  method ExtractText(pdf: Pdf) returns (text: string)
    ensures text == PdfText(pdf)
  {
    var pages := pdf.pages;
    text := "";
    var j := 1;
    while j <= |pages|
      invariant 1 <= j <= |pages| + 1
      invariant text == Concat(PageTexts(pages[..j - 1]))
    {
      assert PageTexts(pages[..j])[..j - 1] == PageTexts(pages[..j - 1]);
      text := text + Concat(pages[j - 1]);
      j := j + 1;
    }
    assert pages[..|pages|] == pages;
  }

  /** One turn of the batch loop. */
  lemma BatchPhaseStep(docs: seq<Document>, i: nat, namespace: string, key: string,
                       upsert: (seq<Document>, string, string) -> Option<string>)
    requires i < |docs|
    ensures var batch := docs[i..Min(i + BatchSize, |docs|)];
      var step := [Respond(Write(Progress(ProgressAt(i, |docs|)))), Invoke(Upsert(batch, namespace, key))];
      var next := BatchPhase(docs, i + BatchSize, namespace, key, upsert);
      BatchPhase(docs, i, namespace, key, upsert)
      == if upsert(batch, namespace, key).Some? then (step, upsert(batch, namespace, key)) else (step + next.0, next.1)
  {
  }

  /** The batch loop: a progress frame and an upsert per batch of 50, until an
      upsert fails. */
  method EmbedBatches(docs: seq<Document>, namespace: string, key: string,
                      upsert: (seq<Document>, string, string) -> Option<string>)
    returns (events: seq<Event>, thrown: Option<string>)
    ensures (events, thrown) == BatchPhase(docs, 0, namespace, key, upsert)
  {
    events := [];
    thrown := None;
    ghost var all := BatchPhase(docs, 0, namespace, key, upsert);
    var i := 0;
    while i < |docs| && thrown.None?
      invariant thrown.None? ==>
        all.0 == events + BatchPhase(docs, i, namespace, key, upsert).0
        && all.1 == BatchPhase(docs, i, namespace, key, upsert).1
      invariant thrown.Some? ==> events == all.0 && thrown == all.1
      decreases |docs| - i
    {
      var chunk := docs[i..Min(i + BatchSize, |docs|)];
      var progress := Respond(Write(Progress(ProgressAt(i, |docs|))));
      var call := Invoke(Upsert(chunk, namespace, key));
      BatchPhaseStep(docs, i, namespace, key, upsert);
      thrown := upsert(chunk, namespace, key);
      BatchStepExtends(events, [progress, call], BatchPhase(docs, i, namespace, key, upsert),
                       BatchPhase(docs, i + BatchSize, namespace, key, upsert), all, thrown);
      events := events + [progress, call];
      i := i + BatchSize;
    }
    assert events + [] == events;
  }

  /** One pass of the batch loop: the events of the batch extend the events
      so far, and either the error ends the phase or the rest follows. */
  lemma BatchStepExtends(before: seq<Event>, step: seq<Event>, cur: (seq<Event>, Option<string>),
                         next: (seq<Event>, Option<string>), all: (seq<Event>, Option<string>), err: Option<string>)
    requires all.0 == before + cur.0 && all.1 == cur.1
    requires cur == if err.Some? then (step, err) else (step + next.0, next.1)
    ensures err.Some? ==> before + step == all.0 && err == all.1
    ensures err.None? ==> all.0 == (before + step) + next.0 && all.1 == next.1
  {
    if err.None? {
      assert before + (step + next.0) == (before + step) + next.0;
    }
  }

  /** `handler(req, res)`. */
  method Handle(req: TrainRequest, cfg: Deployment, svc: Services) returns (trace: seq<Event>)
    ensures trace == TrainSpec(req, cfg, svc)
  {
    if req.files.Some? && req.files.value != [] {
      var read;
      trace, read := ReadAll(req.files.value, cfg, svc.fetch);
      var thrown: Option<string> := None;     // the exception on its way to `catch`
      if read.Failure? {
        thrown := Some(read.error);
      } else {
        var rawDocs := read.value;
        trace := trace + [Invoke(Split(rawDocs, req.chunkSize, cfg.chunkOverlap))];
        var split := svc.split(rawDocs, req.chunkSize, cfg.chunkOverlap);
        if split.Failure? {
          thrown := Some(split.error);
        } else {
          trace := trace + [Invoke(InitIndex)];
          thrown := svc.initIndex;
          if thrown.None? {
            thrown := svc.embeddings(req.key);
          }
          if thrown.None? {
            trace := trace + [Respond(WriteHead(200))];
            var batches;
            batches, thrown := EmbedBatches(split.value, req.namespace, req.key, svc.upsert);
            trace := trace + batches;
          }
        }
      }
      if thrown.Some? {
        trace := trace + Caught(thrown.value);
      }
    } else {
      trace := [Respond(SetStatus(400)), Respond(WriteJson(ParameterError))];
    }
    trace := trace + Finally;
  }

  /** The loop over the requested files: fetch each PDF and extract its text,
      stopping at the first failed fetch. */
  method ReadAll(files: seq<FileRef>, cfg: Deployment, fetch: string -> Result<Pdf, string>)
    returns (fetches: seq<Event>, read: Result<seq<Document>, string>)
    ensures (fetches, read) == ReadFiles(files, cfg, fetch)
  {
    fetches := [];
    var thrown: Option<string> := None;
    var rawDocs: seq<Document> := [];
    var i := 0;
    while i < |files| && thrown.None?
      invariant 0 <= i <= |files|
      invariant thrown.None? ==> ReadFiles(files[..i], cfg, fetch) == (fetches, Success(rawDocs))
      invariant thrown.Some? ==> ReadFiles(files[..i], cfg, fetch) == (fetches, Failure(thrown.value))
    {
      assert files[..i + 1][..i] == files[..i];
      var path := FilePath(cfg, files[i]);
      fetches := fetches + [Invoke(FetchPdf(path))];
      var loaded := fetch(path);
      if loaded.Failure? {
        thrown := Some(loaded.error);
      } else {
        var text := ExtractText(loaded.value);
        rawDocs := rawDocs + [Document(text, files[i].filename)];
      }
      i := i + 1;
    }
    if thrown.Some? {
      ReadFilesFailureSticks(files, i, cfg, fetch);
      read := Failure(thrown.value);
    } else {
      assert files[..i] == files;
      read := Success(rawDocs);
    }
  }

  // ---------------------------------------------------------------------------
  // Properties of the handler

  /** An empty or missing file list is answered 400 'Parameter Error' before
      any PDF is fetched, anything is split, the index is initialised or
      anything is embedded. */
  lemma EmptyFilesRejected(req: TrainRequest, cfg: Deployment, svc: Services)
    requires req.files.None? || req.files.value == []
    ensures TrainSpec(req, cfg, svc)
         == [Respond(SetStatus(400)), Respond(WriteJson(ParameterError)), Respond(Write(Done)), Respond(End)]
    ensures forall k :: 0 <= k < |TrainSpec(req, cfg, svc)| ==> TrainSpec(req, cfg, svc)[k].Respond?
  {
  }

  /** Once the files are read, the splitter is called once, right after the
      last fetch, on the documents read, with the request's chunk size and the
      deployment's chunk overlap, whatever the request says. */
  lemma SplitUsesConfiguredOverlap(req: TrainRequest, cfg: Deployment, svc: Services)
    requires req.files.Some? && req.files.value != []
    requires ReadFiles(req.files.value, cfg, svc.fetch).1.Success?
    ensures var (fetches, read) := ReadFiles(req.files.value, cfg, svc.fetch);
      var t := TrainSpec(req, cfg, svc);
      && |t| > |fetches|
      && t[..|fetches|] == fetches
      && t[|fetches|] == Invoke(Split(read.value, req.chunkSize, cfg.chunkOverlap))
  {
  }

  /** Reading only ever fetches. */
  lemma {:induction false} ReadFilesOnlyFetch(files: seq<FileRef>, cfg: Deployment, fetch: string -> Result<Pdf, string>)
    ensures forall k :: 0 <= k < |ReadFiles(files, cfg, fetch).0| ==>
      ReadFiles(files, cfg, fetch).0[k].Invoke? && ReadFiles(files, cfg, fetch).0[k].call.FetchPdf?
  {
    if files != [] {
      ReadFilesOnlyFetch(files[..|files| - 1], cfg, fetch);
    }
  }

  /** `[DONE]` is written exactly once, and it is the last frame: the response
      is ended right after it, on every path (the 400 answer, a failed read, a
      failed split, a failed index initialisation or embeddings constructor,
      a failed batch, and success). */
  lemma DoneWrittenOnceLast(req: TrainRequest, cfg: Deployment, svc: Services)
    ensures var t := TrainSpec(req, cfg, svc);
      && |t| >= 2
      && t[|t| - 2..] == [Respond(Write(Done)), Respond(End)]
      && (forall k :: 0 <= k < |t| - 2 ==> t[k] != Respond(Write(Done)) && t[k] != Respond(End))
  {
    if req.files.None? || req.files.value == [] {
      FinallyLast([Respond(SetStatus(400)), Respond(WriteJson(ParameterError))]);
    } else {
      var fetches := ReadFiles(req.files.value, cfg, svc.fetch).0;
      var read := ReadFiles(req.files.value, cfg, svc.fetch).1;
      ReadFilesOnlyFetch(req.files.value, cfg, svc.fetch);
      assert forall e | e in fetches :: e.Invoke?;
      if read.Failure? {
        FinallyLast(fetches + Caught(read.error));
      } else if svc.split(read.value, req.chunkSize, cfg.chunkOverlap).Failure? {
        var calls := [Invoke(Split(read.value, req.chunkSize, cfg.chunkOverlap))];
        FinallyLast(fetches + calls + Caught(svc.split(read.value, req.chunkSize, cfg.chunkOverlap).error));
      } else if SetupError(req, svc).Some? {
        var calls := [Invoke(Split(read.value, req.chunkSize, cfg.chunkOverlap)), Invoke(InitIndex)];
        FinallyLast(fetches + calls + Caught(SetupError(req, svc).value));
      } else {
        IndexedDoneLast(req, cfg, svc);
      }
    }
  }

  /** A failing split, index initialisation or embeddings constructor is
      caught before the header: after the fetches and the calls made so far
      come status 500 with the error, then `[DONE]` and the end. No header is
      sent and nothing is upserted. */
  lemma SetupFailureCaught(req: TrainRequest, cfg: Deployment, svc: Services)
    requires req.files.Some? && req.files.value != [] && ReadFiles(req.files.value, cfg, svc.fetch).1.Success?
    requires !ReachesIndex(req, cfg, svc)
    ensures var t := TrainSpec(req, cfg, svc);
      var e := if SplitResult(req, cfg, svc).Failure? then SplitResult(req, cfg, svc).error
               else SetupError(req, svc).value;
      && |t| >= 4
      && t[|t| - 4..] == Caught(e) + Finally
      && (forall k :: 0 <= k < |t| - 4 ==> t[k].Invoke? && !t[k].call.Upsert?)
  {
    var (fetches, read) := ReadFiles(req.files.value, cfg, svc.fetch);
    ReadFilesOnlyFetch(req.files.value, cfg, svc.fetch);
    var splitCall := Invoke(Split(read.value, req.chunkSize, cfg.chunkOverlap));
    var calls := if SplitResult(req, cfg, svc).Failure? then fetches + [splitCall]
                 else fetches + [splitCall, Invoke(InitIndex)];
    var t := TrainSpec(req, cfg, svc);
    var e := if SplitResult(req, cfg, svc).Failure? then SplitResult(req, cfg, svc).error
             else SetupError(req, svc).value;
    assert t == calls + (Caught(e) + Finally);
    assert t[|t| - 4..] == Caught(e) + Finally;
    forall k | 0 <= k < |t| - 4
      ensures t[k].Invoke? && !t[k].call.Upsert?
    {
      assert t[k] == calls[k];
      if k < |fetches| {
        assert calls[k] == fetches[k];
      }
    }
  }

  /** `DoneWrittenOnceLast` on a run that reaches the index. */
  lemma IndexedDoneLast(req: TrainRequest, cfg: Deployment, svc: Services)
    requires ReachesIndex(req, cfg, svc)
    ensures var t := TrainSpec(req, cfg, svc);
      && |t| >= 2
      && t[|t| - 2..] == [Respond(Write(Done)), Respond(End)]
      && (forall k :: 0 <= k < |t| - 2 ==> t[k] != Respond(Write(Done)) && t[k] != Respond(End))
  {
    var r := BatchPhase(SplitDocs(req, cfg, svc), 0, req.namespace, req.key, svc.upsert);
    IndexedHeadKinds(req, cfg, svc);
    BatchPhaseKinds(SplitDocs(req, cfg, svc), 0, req.namespace, req.key, svc.upsert);
    IndexedRunTrace(req, cfg, svc);
    TailDoneLast(TrainSpec(req, cfg, svc), IndexedHead(req, cfg, svc), r.0, r.1);
  }

  /** Before the batches, an indexed run only calls services and sends the
      headers. */
  lemma IndexedHeadKinds(req: TrainRequest, cfg: Deployment, svc: Services)
    requires ReachesIndex(req, cfg, svc)
    ensures forall e | e in IndexedHead(req, cfg, svc) :: e.Invoke? || e == Respond(WriteHead(200))
  {
    var fetches := ReadFiles(req.files.value, cfg, svc.fetch).0;
    var head := IndexedHead(req, cfg, svc);
    ReadFilesOnlyFetch(req.files.value, cfg, svc.fetch);
    forall e | e in head
      ensures e.Invoke? || e == Respond(WriteHead(200))
    {
      var k :| 0 <= k < |head| && head[k] == e;
      if k < |fetches| {
        assert head[k] == fetches[k];
      }
    }
  }

  /** With neither `[DONE]` nor the end among the head and the batch events,
      the tail of the run puts them last. */
  lemma TailDoneLast(t: seq<Event>, head: seq<Event>, events: seq<Event>, err: Option<string>)
    requires t == head + events + BatchTail(err)
    requires forall e | e in head :: e.Invoke? || e == Respond(WriteHead(200))
    requires forall e | e in events :: IsProgress(e) || (e.Invoke? && e.call.Upsert?)
    ensures && |t| >= 2
            && t[|t| - 2..] == [Respond(Write(Done)), Respond(End)]
            && (forall k :: 0 <= k < |t| - 2 ==> t[k] != Respond(Write(Done)) && t[k] != Respond(End))
  {
    var caught := if err.Some? then Caught(err.value) else [];
    var prefix := head + events + caught;
    forall e | e in prefix
      ensures e != Respond(Write(Done)) && e != Respond(End)
    {
      if e !in head && e !in events {
        assert e in caught;
      }
    }
    assert t == prefix + Finally;
    FinallyLast(prefix);
  }

  /** A trace that ends with the `finally` block and has neither `[DONE]` nor
      the end before it. */
  lemma FinallyLast(prefix: seq<Event>)
    requires forall e | e in prefix :: e != Respond(Write(Done)) && e != Respond(End)
    ensures var t := prefix + Finally;
      && |t| >= 2
      && t[|t| - 2..] == [Respond(Write(Done)), Respond(End)]
      && (forall k :: 0 <= k < |t| - 2 ==> t[k] != Respond(Write(Done)) && t[k] != Respond(End))
  {
    var t := prefix + Finally;
    assert t[|t| - 2..] == Finally;
    forall k | 0 <= k < |t| - 2
      ensures t[k] != Respond(Write(Done)) && t[k] != Respond(End)
    {
      assert t[k] == prefix[k] && prefix[k] in prefix;
    }
  }

  /** The batch loop only writes progress frames and upserts. */
  lemma {:induction false} BatchPhaseKinds(docs: seq<Document>, i: nat, namespace: string, key: string,
                                           upsert: (seq<Document>, string, string) -> Option<string>)
    ensures forall e | e in BatchPhase(docs, i, namespace, key, upsert).0 :: IsProgress(e) || (e.Invoke? && e.call.Upsert?)
    decreases |docs| - i
  {
    if i < |docs| {
      BatchPhaseStep(docs, i, namespace, key, upsert);
      BatchPhaseKinds(docs, i + BatchSize, namespace, key, upsert);
    }
  }

  /** The percentages written, in order. */
  function Percents(t: seq<Event>): seq<nat>
  {
    if t == [] then []
    else if IsProgress(t[0]) then [t[0].op.frame.percent] + Percents(t[1..])
    else Percents(t[1..])
  }

  lemma {:induction false} PercentsAppend(a: seq<Event>, b: seq<Event>)
    ensures Percents(a + b) == Percents(a) + Percents(b)
  {
    if a != [] {
      assert (a + b)[0] == a[0];
      assert (a + b)[1..] == a[1..] + b;
      PercentsAppend(a[1..], b);
    } else {
      assert a + b == b;
    }
  }

  /** The percentages written by the batch loop are one per attempted batch:
      the k-th is the progress of the batch starting at i + 50k. */
  lemma BatchPercents(docs: seq<Document>, i: nat, namespace: string, key: string,
                      upsert: (seq<Document>, string, string) -> Option<string>)
    ensures var events := BatchPhase(docs, i, namespace, key, upsert).0;
      var p := Percents(events);
      && 2 * |p| == |events|
      && forall k :: 0 <= k < |p| ==> i + BatchSize * k < |docs| && p[k] == ProgressAt(i + BatchSize * k, |docs|)
  {
    BatchPercentsLength(docs, i, namespace, key, upsert);
    var p := Percents(BatchPhase(docs, i, namespace, key, upsert).0);
    forall k | 0 <= k < |p|
      ensures i + BatchSize * k < |docs| && p[k] == ProgressAt(i + BatchSize * k, |docs|)
    {
      BatchPercentAt(docs, i, namespace, key, upsert, k);
    }
  }

  /** One turn of the batch loop writes one percentage. */
  lemma StepPercents(docs: seq<Document>, i: nat, namespace: string, key: string,
                     upsert: (seq<Document>, string, string) -> Option<string>)
    requires i < |docs|
    ensures Percents(BatchPhase(docs, i, namespace, key, upsert).0)
         == [ProgressAt(i, |docs|)]
            + if upsert(BatchAt(docs, i), namespace, key).None?
              then Percents(BatchPhase(docs, i + BatchSize, namespace, key, upsert).0) else []
  {
    var batch := BatchAt(docs, i);
    var step := [Respond(Write(Progress(ProgressAt(i, |docs|)))), Invoke(Upsert(batch, namespace, key))];
    assert Percents(step) == [ProgressAt(i, |docs|)] by {
      assert IsProgress(step[0]) && step[1..] == [step[1]];
      NoPercents(step[1..]);
    }
    BatchPhaseStep(docs, i, namespace, key, upsert);
    if upsert(batch, namespace, key).None? {
      PercentsAppend(step, BatchPhase(docs, i + BatchSize, namespace, key, upsert).0);
    } else {
      assert [ProgressAt(i, |docs|)] + [] == [ProgressAt(i, |docs|)];
    }
  }

  /** Two events per percentage written. */
  lemma {:induction false} BatchPercentsLength(docs: seq<Document>, i: nat, namespace: string, key: string,
                                               upsert: (seq<Document>, string, string) -> Option<string>)
    ensures 2 * |Percents(BatchPhase(docs, i, namespace, key, upsert).0)| == |BatchPhase(docs, i, namespace, key, upsert).0|
    decreases |docs| - i
  {
    if i < |docs| {
      StepPercents(docs, i, namespace, key, upsert);
      BatchPhaseStep(docs, i, namespace, key, upsert);
      if upsert(BatchAt(docs, i), namespace, key).None? {
        BatchPercentsLength(docs, i + BatchSize, namespace, key, upsert);
      }
    }
  }

  /** The k-th percentage is the progress of the batch starting at i + 50k. */
  lemma {:induction false} BatchPercentAt(docs: seq<Document>, i: nat, namespace: string, key: string,
                                          upsert: (seq<Document>, string, string) -> Option<string>, k: nat)
    requires k < |Percents(BatchPhase(docs, i, namespace, key, upsert).0)|
    ensures i + BatchSize * k < |docs|
    ensures Percents(BatchPhase(docs, i, namespace, key, upsert).0)[k] == ProgressAt(i + BatchSize * k, |docs|)
    decreases k
  {
    StepPercents(docs, i, namespace, key, upsert);
    if k > 0 {
      BatchPercentAt(docs, i + BatchSize, namespace, key, upsert, k - 1);
      assert i + BatchSize + BatchSize * (k - 1) == i + BatchSize * k;
    }
  }


  /** What the splitter makes of the documents read, on a run that gets that far. */
  function SplitResult(req: TrainRequest, cfg: Deployment, svc: Services): Result<seq<Document>, string>
    requires req.files.Some? && ReadFiles(req.files.value, cfg, svc.fetch).1.Success?
  {
    svc.split(ReadFiles(req.files.value, cfg, svc.fetch).1.value, req.chunkSize, cfg.chunkOverlap)
  }

  /** Whether a run reaches the index and the batch loop: there are files, all
      are read, the split succeeds, the index is initialised and the
      embeddings are constructed. */
  predicate ReachesIndex(req: TrainRequest, cfg: Deployment, svc: Services)
  {
    req.files.Some? && req.files.value != [] && ReadFiles(req.files.value, cfg, svc.fetch).1.Success?
    && SplitResult(req, cfg, svc).Success? && SetupError(req, svc).None?
  }

  /** The documents the splitter returns, on a run that reaches the index. */
  function SplitDocs(req: TrainRequest, cfg: Deployment, svc: Services): seq<Document>
    requires ReachesIndex(req, cfg, svc)
  {
    SplitResult(req, cfg, svc).value
  }

  /** The events of a run that reaches the index, before the batch loop. */
  function IndexedHead(req: TrainRequest, cfg: Deployment, svc: Services): seq<Event>
    requires ReachesIndex(req, cfg, svc)
  {
    ReadFiles(req.files.value, cfg, svc.fetch).0
    + [ Invoke(Split(ReadFiles(req.files.value, cfg, svc.fetch).1.value, req.chunkSize, cfg.chunkOverlap)),
        Invoke(InitIndex), Respond(WriteHead(200))]
  }

  /** The events of the `catch` and `finally` blocks after the batch loop. */
  function BatchTail(err: Option<string>): seq<Event>
  {
    (if err.Some? then Caught(err.value) else []) + Finally
  }

  /** A run that reaches the index: the fetches, the split, the index, the
      header, the batch loop, then `catch` and `finally`. */
  lemma IndexedRunTrace(req: TrainRequest, cfg: Deployment, svc: Services)
    requires ReachesIndex(req, cfg, svc)
    ensures var r := BatchPhase(SplitDocs(req, cfg, svc), 0, req.namespace, req.key, svc.upsert);
      TrainSpec(req, cfg, svc) == IndexedHead(req, cfg, svc) + r.0 + BatchTail(r.1)
  {
  }

  /** Only the batch loop writes percentages. */
  lemma PercentsOfRun(req: TrainRequest, cfg: Deployment, svc: Services)
    ensures Percents(TrainSpec(req, cfg, svc))
         == if ReachesIndex(req, cfg, svc)
            then Percents(BatchPhase(SplitDocs(req, cfg, svc), 0, req.namespace, req.key, svc.upsert).0)
            else []
  {
    var t := TrainSpec(req, cfg, svc);
    if ReachesIndex(req, cfg, svc) {
      var r := BatchPhase(SplitDocs(req, cfg, svc), 0, req.namespace, req.key, svc.upsert);
      var head := IndexedHead(req, cfg, svc);
      IndexedRunTrace(req, cfg, svc);
      ReadFilesOnlyFetch(req.files.value, cfg, svc.fetch);
      NoPercents(head);
      NoPercents(BatchTail(r.1));
      PercentsAppend(head, r.0);
      PercentsAppend(head + r.0, BatchTail(r.1));
    } else if req.files.None? || req.files.value == [] {
      NoPercents(t);
    } else {
      ReadFilesOnlyFetch(req.files.value, cfg, svc.fetch);
      NoPercents(t);
    }
  }

  /** The percentages of the batch loop: every value is in [30, 100], they
      never decrease, and the first is 30. */
  lemma BatchPercentsBounded(docs: seq<Document>, namespace: string, key: string,
                             upsert: (seq<Document>, string, string) -> Option<string>)
    ensures var p := Percents(BatchPhase(docs, 0, namespace, key, upsert).0);
      && (forall k :: 0 <= k < |p| ==> 30 <= p[k] <= 100)
      && (forall k, l :: 0 <= k <= l < |p| ==> p[k] <= p[l])
      && (|p| > 0 ==> p[0] == 30)
  {
    var p := Percents(BatchPhase(docs, 0, namespace, key, upsert).0);
    BatchPercents(docs, 0, namespace, key, upsert);
    forall k | 0 <= k < |p|
      ensures 30 <= p[k] <= 100
    {
      ProgressBounds(BatchSize * k, |docs|);
    }
    forall k, l | 0 <= k <= l < |p|
      ensures p[k] <= p[l]
    {
      ProgressMonotone(BatchSize * k, BatchSize * l, |docs|);
    }
    if |p| > 0 {
      ProgressBounds(0, |docs|);
    }
  }

  /** The batch loop writes one percentage per batch attempted: none for an
      empty document list, at most ceil(n / 50), and exactly that many when
      no batch fails. */
  lemma BatchPercentsCount(docs: seq<Document>, namespace: string, key: string,
                           upsert: (seq<Document>, string, string) -> Option<string>)
    ensures var r := BatchPhase(docs, 0, namespace, key, upsert);
      var p := Percents(r.0);
      && (docs == [] ==> p == [])
      && |p| <= CeilDiv(|docs|, BatchSize)
      && (r.1.None? ==> |p| == CeilDiv(|docs|, BatchSize))
  {
    var r := BatchPhase(docs, 0, namespace, key, upsert);
    BatchPercents(docs, 0, namespace, key, upsert);
    BatchPhaseStops(docs, 0, namespace, key, upsert);
    BatchCount(docs, 0);
    var h := |Percents(r.0)|;
    assert |r.0| == 2 * h && |r.0| / 2 == h;
  }

  /** The progress frames of any run: every value is in [30, 100], they never
      decrease, and the first is 30. When the index is reached they are the
      frames of the batches attempted: none for an empty document list, and
      ceil(n / 50) of them when no batch fails. */
  lemma ProgressFrames(req: TrainRequest, cfg: Deployment, svc: Services)
    ensures var p := Percents(TrainSpec(req, cfg, svc));
      && (forall k :: 0 <= k < |p| ==> 30 <= p[k] <= 100)
      && (forall k, l :: 0 <= k <= l < |p| ==> p[k] <= p[l])
      && (|p| > 0 ==> p[0] == 30)
    ensures ReachesIndex(req, cfg, svc) ==>
      var docs := SplitDocs(req, cfg, svc);
      var p := Percents(TrainSpec(req, cfg, svc));
      && (docs == [] ==> p == [])
      && |p| <= CeilDiv(|docs|, BatchSize)
      && (BatchPhase(docs, 0, req.namespace, req.key, svc.upsert).1.None? ==> |p| == CeilDiv(|docs|, BatchSize))
  {
    PercentsOfRun(req, cfg, svc);
    if ReachesIndex(req, cfg, svc) {
      var docs := SplitDocs(req, cfg, svc);
      BatchPercentsBounded(docs, req.namespace, req.key, svc.upsert);
      BatchPercentsCount(docs, req.namespace, req.key, svc.upsert);
    }
  }

  predicate IsProgress(e: Event)
  {
    e.Respond? && e.op.Write? && e.op.frame.Progress?
  }

  lemma {:induction false} NoPercents(t: seq<Event>)
    requires forall k :: 0 <= k < |t| ==> !IsProgress(t[k])
    ensures Percents(t) == []
  {
    if t != [] {
      NoPercents(t[1..]);
    }
  }

  /** Batches are upserted strictly in order, each right after its progress
      frame; when batch m fails, no later batch is attempted and the error is
      written, then `[DONE]`. */
  lemma BatchFailureStops(req: TrainRequest, cfg: Deployment, svc: Services)
    requires ReachesIndex(req, cfg, svc)
    ensures var docs := SplitDocs(req, cfg, svc);
      var (batches, err) := BatchPhase(docs, 0, req.namespace, req.key, svc.upsert);
      var bs := BatchesFrom(docs, 0);
      var m := |batches| / 2;
      && TrainSpec(req, cfg, svc) == IndexedHead(req, cfg, svc) + batches + BatchTail(err)
      && m <= |bs|
      && (forall k :: 0 <= k < m ==> batches[2 * k + 1] == Invoke(Upsert(bs[k], req.namespace, req.key)))
      && (forall k :: 0 <= k < m - 1 ==> svc.upsert(bs[k], req.namespace, req.key).None?)
      && (err.Some? ==> 0 < m && svc.upsert(bs[m - 1], req.namespace, req.key) == err)
      && (err.None? ==> m == |bs|)
  {
    var docs := SplitDocs(req, cfg, svc);
    IndexedRunTrace(req, cfg, svc);
    BatchPhaseEvents(docs, 0, req.namespace, req.key, svc.upsert);
    BatchPhaseStops(docs, 0, req.namespace, req.key, svc.upsert);
  }

}
