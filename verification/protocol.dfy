/** How the browser and the two endpoints fit together.

    The ingestion endpoint's trace of response operations is delivered the
    way Node's `ServerResponse` delivers them: the status goes out with the
    first header write, and nothing is delivered once the response has
    ended. What arrives is what the settings page's read loop consumes.
    On the chat side, the message list the page posts is what the query
    endpoint windows. */
module Protocol {
  import opened Common
  import opened ChatTypes
  import Ingest
  import SettingsClient
  import QueryRouter
  import Playback

  // ---------------------------------------------------------------------------
  // The ingestion response on the wire

  /** The response as the client can observe it: the `statusCode` property,
      the status sent with the headers (once they are sent), the body chunks
      delivered, and whether the response has ended. */
  datatype WireState = WireState(statusCode: int, sent: Option<int>, chunks: seq<string>, ended: bool)

  /** A response nothing has been done to. */
  const Fresh: WireState := WireState(200, None, [], false)

  /** The status the headers carry: the one already sent, or the current one. */
  function HeaderStatus(w: WireState): int
  {
    if w.sent.Some? then w.sent.value else w.statusCode
  }

  /** The text of a frame: a progress percentage in decimal, the serialised
      error as it is, or the marker. */
  function FrameText(f: Ingest.Frame): string
  {
    match f
    case Progress(p) => NatToString(p)
    case ErrorBody(s) => s
    case Done => SettingsClient.DoneMarker
  }

  /** `JSON.stringify` of a string without quotes or escapes in it. */
  function JsonText(s: string): string
  {
    "\"" + s + "\""
  }

  /** One response operation. */
  function Step(w: WireState, op: Ingest.ResOp): WireState
  {
    if w.ended then w
    else match op
      case SetStatus(c) => w.(statusCode := c)
      case WriteJson(b) => w.(sent := Some(HeaderStatus(w)), chunks := w.chunks + [JsonText(b)], ended := true)
      case WriteHead(c) => if w.sent.None? then w.(statusCode := c, sent := Some(c)) else w
      case Write(f) => w.(sent := Some(HeaderStatus(w)), chunks := w.chunks + [FrameText(f)])
      case End => w.(sent := Some(HeaderStatus(w)), ended := true)
  }

  /** The operations, in order. */
  function Deliver(w: WireState, ops: seq<Ingest.ResOp>): WireState
    decreases |ops|
  {
    if ops == [] then w else Deliver(Step(w, ops[0]), ops[1..])
  }

  lemma {:induction false} DeliverAppend(w: WireState, a: seq<Ingest.ResOp>, b: seq<Ingest.ResOp>)
    ensures Deliver(w, a + b) == Deliver(Deliver(w, a), b)
    decreases |a|
  {
    if a == [] {
      assert a + b == b;
    } else {
      assert (a + b)[0] == a[0];
      assert (a + b)[1..] == a[1..] + b;
      DeliverAppend(Step(w, a[0]), a[1..], b);
    }
  }

  /** Nothing is delivered after the end. */
  lemma {:induction false} DeliverAfterEnd(w: WireState, ops: seq<Ingest.ResOp>)
    requires w.ended
    ensures Deliver(w, ops) == w
  {
    if ops != [] {
      DeliverAfterEnd(w, ops[1..]);
    }
  }

  /** The response operations of a trace, in order. */
  function Responses(t: seq<Ingest.Event>): seq<Ingest.ResOp>
  {
    if t == [] then []
    else (if t[0].Respond? then [t[0].op] else []) + Responses(t[1..])
  }

  lemma {:induction false} ResponsesAppend(a: seq<Ingest.Event>, b: seq<Ingest.Event>)
    ensures Responses(a + b) == Responses(a) + Responses(b)
  {
    if a != [] {
      assert (a + b)[0] == a[0];
      assert (a + b)[1..] == a[1..] + b;
      ResponsesAppend(a[1..], b);
    } else {
      assert a + b == b;
    }
  }

  /** Calls to services are not response operations. */
  lemma {:induction false} CallsRespondNothing(t: seq<Ingest.Event>)
    requires forall k :: 0 <= k < |t| ==> t[k].Invoke?
    ensures Responses(t) == []
  {
    if t != [] {
      CallsRespondNothing(t[1..]);
    }
  }

  /** A trace of response operations only is those operations. */
  lemma {:induction false} OnlyResponses(t: seq<Ingest.Event>)
    requires forall k :: 0 <= k < |t| ==> t[k].Respond?
    ensures Responses(t) == seq(|t|, k requires 0 <= k < |t| => t[k].op)
  {
    if t != [] {
      OnlyResponses(t[1..]);
    }
  }

  /** The operations of the `catch` and `finally` blocks. */
  function TailOps(err: Option<string>): seq<Ingest.ResOp>
  {
    (if err.Some? then [Ingest.SetStatus(500), Ingest.Write(Ingest.ErrorBody(err.value))] else [])
    + [Ingest.Write(Ingest.Done), Ingest.End]
  }

  lemma TailResponses(err: Option<string>)
    ensures Responses((if err.Some? then Ingest.Caught(err.value) else []) + Ingest.Finally) == TailOps(err)
  {
    OnlyResponses((if err.Some? then Ingest.Caught(err.value) else []) + Ingest.Finally);
  }

  /** The writes of the given percentages. */
  function ProgressWrites(ps: seq<nat>): seq<Ingest.ResOp>
  {
    seq(|ps|, k requires 0 <= k < |ps| => Ingest.Write(Ingest.Progress(ps[k])))
  }

  /** The decimal texts of the given percentages. */
  function ProgressTexts(ps: seq<nat>): seq<string>
  {
    seq(|ps|, k requires 0 <= k < |ps| => NatToString(ps[k]))
  }

  /** The batch loop's only response operations are its progress writes. */
  lemma {:induction false} BatchResponses(docs: seq<Ingest.Document>, i: nat, namespace: string, key: string,
                                          upsert: (seq<Ingest.Document>, string, string) -> Option<string>)
    ensures var events := Ingest.BatchPhase(docs, i, namespace, key, upsert).0;
      Responses(events) == ProgressWrites(Ingest.Percents(events))
    decreases |docs| - i
  {
    if i < |docs| {
      var batch := Ingest.BatchAt(docs, i);
      var p := Ingest.ProgressAt(i, |docs|);
      var step := [Ingest.Respond(Ingest.Write(Ingest.Progress(p))), Ingest.Invoke(Ingest.Upsert(batch, namespace, key))];
      assert Responses(step) == [Ingest.Write(Ingest.Progress(p))] by {
        assert step[1..] == [step[1]];
        CallsRespondNothing(step[1..]);
      }
      assert Ingest.Percents(step) == [p] by {
        assert Ingest.IsProgress(step[0]) && step[1..] == [step[1]];
        Ingest.NoPercents(step[1..]);
      }
      if upsert(batch, namespace, key).None? {
        var rest := Ingest.BatchPhase(docs, i + Ingest.BatchSize, namespace, key, upsert).0;
        BatchResponses(docs, i + Ingest.BatchSize, namespace, key, upsert);
        ResponsesAppend(step, rest);
        Ingest.PercentsAppend(step, rest);
        assert ProgressWrites([p] + Ingest.Percents(rest))
            == [Ingest.Write(Ingest.Progress(p))] + ProgressWrites(Ingest.Percents(rest));
      } else {
        assert ProgressWrites([p]) == [Ingest.Write(Ingest.Progress(p))];
      }
    }
  }

  /** Once the headers are out and before the end, each progress write
      delivers its percentage as one chunk. */
  lemma {:induction false} DeliverProgress(w: WireState, ps: seq<nat>)
    requires w.sent.Some? && !w.ended
    ensures Deliver(w, ProgressWrites(ps)) == w.(chunks := w.chunks + ProgressTexts(ps))
    decreases |ps|
  {
    if ps != [] {
      var w' := w.(chunks := w.chunks + [NatToString(ps[0])]);
      assert Step(w, ProgressWrites(ps)[0]) == w';
      assert ProgressWrites(ps)[1..] == ProgressWrites(ps[1..]);
      DeliverProgress(w', ps[1..]);
      assert ProgressTexts(ps) == [NatToString(ps[0])] + ProgressTexts(ps[1..]);
    } else {
      assert w.chunks + ProgressTexts(ps) == w.chunks;
    }
  }

  /** What the settings page's `fetch` makes of a delivered response. */
  function Seen(w: WireState): SettingsClient.TrainResponse
  {
    if 200 <= HeaderStatus(w) <= 299 then SettingsClient.Stream(w.chunks) else SettingsClient.NotOk
  }

  /** The ingestion endpoint's response as the settings page sees it. */
  function TrainSeen(req: Ingest.TrainRequest, cfg: Deployment, svc: Ingest.Services): SettingsClient.TrainResponse
  {
    Seen(Deliver(Fresh, Responses(Ingest.TrainSpec(req, cfg, svc))))
  }

  // ---------------------------------------------------------------------------
  // Ingestion outcomes as the page sees them

  /** An empty file list is answered 400 with the JSON string
      "Parameter Error"; the response has ended, so the `[DONE]` written in
      `finally` never arrives, and the page reports an error. */
  lemma EmptyFilesSeenAsError(req: Ingest.TrainRequest, cfg: Deployment, svc: Ingest.Services)
    requires req.files.None? || req.files.value == []
    ensures Deliver(Fresh, Responses(Ingest.TrainSpec(req, cfg, svc)))
         == WireState(400, Some(400), [JsonText(Ingest.ParameterError)], true)
    ensures TrainSeen(req, cfg, svc) == SettingsClient.NotOk
  {
    var t := Ingest.TrainSpec(req, cfg, svc);
    OnlyResponses(t);
    var ops := Responses(t);
    assert ops[1..][1..] == TailOps(None);
    var w := WireState(400, Some(400), [JsonText(Ingest.ParameterError)], true);
    assert Deliver(Fresh, ops) == Deliver(Step(Step(Fresh, ops[0]), ops[1..][0]), ops[1..][1..]);
    assert Step(Step(Fresh, ops[0]), ops[1..][0]) == w;
    DeliverAfterEnd(w, TailOps(None));
  }

  /** Delivering the operations of the `catch` and `finally` blocks: the
      500 goes out only if no header has been sent yet. */
  lemma DeliverTail(w: WireState, err: Option<string>)
    requires !w.ended
    ensures var status := if err.Some? then 500 else w.statusCode;
      Deliver(w, TailOps(err))
      == WireState(status, Some(if w.sent.Some? then w.sent.value else status),
                   w.chunks + (if err.Some? then [err.value] else []) + [SettingsClient.DoneMarker], true)
  {
    var ops := TailOps(err);
    var status := if err.Some? then 500 else w.statusCode;
    var sent := Some(if w.sent.Some? then w.sent.value else status);
    var extra := if err.Some? then [err.value] else [];
    var w2 := WireState(status, sent, w.chunks + extra, false);
    if err.Some? {
      var w1 := w.(statusCode := 500);
      assert Step(w, ops[0]) == w1;
      assert Step(w1, ops[1]) == w2;
      assert Deliver(w, ops) == Deliver(w1, ops[1..]);
      assert Deliver(w1, ops[1..]) == Deliver(w2, ops[2..]);
      assert ops[2..] == TailOps(None);
    } else {
      assert w2 == w.(sent := sent, chunks := w.chunks + []);
      assert ops == TailOps(None);
    }
    var w3 := w2.(chunks := w2.chunks + [SettingsClient.DoneMarker]);
    var w4 := w3.(ended := true);
    var rest := TailOps(None);
    assert Step(w2, rest[0]) == w3;
    assert Step(w3, rest[1]) == w4;
    assert Deliver(w2, rest) == Deliver(w3, rest[1..]);
    assert Deliver(w3, rest[1..]) == Deliver(w4, rest[1..][1..]);
    assert rest[1..][1..] == [];
  }

  /** A file that cannot be read, a split that fails, an index that cannot be
      reached or embeddings that cannot be constructed: each is answered 500
      before any header is sent, so the page reports an error. */
  lemma EarlyFailureSeenAsError(req: Ingest.TrainRequest, cfg: Deployment, svc: Ingest.Services)
    requires req.files.Some? && req.files.value != []
    requires !Ingest.ReachesIndex(req, cfg, svc)
    ensures TrainSeen(req, cfg, svc) == SettingsClient.NotOk
  {
    var (fetches, read) := Ingest.ReadFiles(req.files.value, cfg, svc.fetch);
    Ingest.ReadFilesOnlyFetch(req.files.value, cfg, svc.fetch);
    var calls, e;
    if read.Failure? {
      calls, e := fetches, read.error;
    } else {
      var split := svc.split(read.value, req.chunkSize, cfg.chunkOverlap);
      var splitCall := Ingest.Invoke(Ingest.Split(read.value, req.chunkSize, cfg.chunkOverlap));
      if split.Failure? {
        calls, e := fetches + [splitCall], split.error;
      } else {
        calls, e := fetches + [splitCall, Ingest.Invoke(Ingest.InitIndex)], Ingest.SetupError(req, svc).value;
      }
    }
    var tail := Ingest.Caught(e) + Ingest.Finally;
    assert Ingest.TrainSpec(req, cfg, svc) == calls + tail;
    CallsRespondNothing(calls);
    ResponsesAppend(calls, tail);
    TailResponses(Some(e));
    assert Responses(calls + tail) == TailOps(Some(e));
    DeliverTail(Fresh, Some(e));
  }

  /** The response operations of a run that reaches the index: the header,
      one progress write per attempted batch, then `catch` and `finally`. */
  lemma IndexedRunResponses(req: Ingest.TrainRequest, cfg: Deployment, svc: Ingest.Services)
    requires Ingest.ReachesIndex(req, cfg, svc)
    ensures var (batches, err) := Ingest.BatchPhase(Ingest.SplitDocs(req, cfg, svc), 0, req.namespace, req.key, svc.upsert);
      Responses(Ingest.TrainSpec(req, cfg, svc))
      == [Ingest.WriteHead(200)] + ProgressWrites(Ingest.Percents(batches)) + TailOps(err)
  {
    var docs := Ingest.SplitDocs(req, cfg, svc);
    var (batches, err) := Ingest.BatchPhase(docs, 0, req.namespace, req.key, svc.upsert);
    var (fetches, read) := Ingest.ReadFiles(req.files.value, cfg, svc.fetch);
    Ingest.ReadFilesOnlyFetch(req.files.value, cfg, svc.fetch);
    var calls := fetches + [Ingest.Invoke(Ingest.Split(read.value, req.chunkSize, cfg.chunkOverlap)), Ingest.Invoke(Ingest.InitIndex)];
    var header := [Ingest.Respond(Ingest.WriteHead(200))];
    var tail := (if err.Some? then Ingest.Caught(err.value) else []) + Ingest.Finally;
    assert Ingest.TrainSpec(req, cfg, svc) == calls + header + batches + tail;
    CallsRespondNothing(calls);
    OnlyResponses(header);
    ResponsesAppend(calls, header);
    ResponsesAppend(calls + header, batches);
    ResponsesAppend(calls + header + batches, tail);
    BatchResponses(docs, 0, req.namespace, req.key, svc.upsert);
    TailResponses(err);
  }

  /** On a run that reaches the index: the status 200 goes out with the
      headers, then one chunk per progress frame, then, if a batch failed,
      the serialised error (the 500 set afterwards never reaches the page),
      and last `[DONE]`. */
  lemma IndexedRunDelivery(req: Ingest.TrainRequest, cfg: Deployment, svc: Ingest.Services)
    requires Ingest.ReachesIndex(req, cfg, svc)
    ensures var (batches, err) := Ingest.BatchPhase(Ingest.SplitDocs(req, cfg, svc), 0, req.namespace, req.key, svc.upsert);
      TrainSeen(req, cfg, svc)
      == SettingsClient.Stream(ProgressTexts(Ingest.Percents(batches))
                               + (if err.Some? then [err.value] else []) + [SettingsClient.DoneMarker])
  {
    var (batches, err) := Ingest.BatchPhase(Ingest.SplitDocs(req, cfg, svc), 0, req.namespace, req.key, svc.upsert);
    var ps := Ingest.Percents(batches);
    IndexedRunResponses(req, cfg, svc);
    var header := [Ingest.WriteHead(200)];
    var w0 := WireState(200, Some(200), [], false);
    assert Deliver(Fresh, header) == Deliver(w0, header[1..]);
    DeliverAppend(Fresh, header, ProgressWrites(ps));
    DeliverAppend(Fresh, header + ProgressWrites(ps), TailOps(err));
    DeliverProgress(w0, ps);
    assert [] + ProgressTexts(ps) == ProgressTexts(ps);
    DeliverTail(w0.(chunks := ProgressTexts(ps)), err);
    assert w0.(chunks := ProgressTexts(ps)).sent == Some(200);
  }

  /** Progress chunks are digits only, so the page's read loop passes over
      every one of them. */
  lemma ProgressChunksPassOver(ps: seq<nat>, rest: seq<string>)
    ensures SettingsClient.FirstDone(ProgressTexts(ps) + rest)
         == match SettingsClient.FirstDone(rest)
            case None => None
            case Some(k) => Some(|ps| + k)
  {
    var all := ProgressTexts(ps) + rest;
    forall j | 0 <= j < |ps|
      ensures !Contains(all[j], SettingsClient.DoneMarker)
    {
      assert all[j] == NatToString(ps[j]);
      assert SettingsClient.DoneMarker[0] == '[';
      DigitsContainNoBracket(NatToString(ps[j]), SettingsClient.DoneMarker);
    }
    match SettingsClient.FirstDone(rest)
    case None =>
      forall j | |ps| <= j < |all|
        ensures !Contains(all[j], SettingsClient.DoneMarker)
      {
        assert all[j] == rest[j - |ps|];
      }
    case Some(k) =>
      assert all[|ps| + k] == rest[k];
      forall j | |ps| <= j < |ps| + k
        ensures !Contains(all[j], SettingsClient.DoneMarker)
      {
        assert all[j] == rest[j - |ps|];
      }
      FirstDoneUnique(all, |ps| + k);
  }

  /** A chunk with the marker and none before it is the first. */
  lemma {:induction false} FirstDoneUnique(chunks: seq<string>, k: nat)
    requires k < |chunks| && Contains(chunks[k], SettingsClient.DoneMarker)
    requires forall j :: 0 <= j < k ==> !Contains(chunks[j], SettingsClient.DoneMarker)
    ensures SettingsClient.FirstDone(chunks) == Some(k)
  {
    if k > 0 {
      FirstDoneUnique(chunks[1..], k - 1);
    }
  }

  /** A run that embeds everything ends the page's read loop at `[DONE]`,
      after one chunk per batch: the page reports success. */
  lemma CompletedRunSeenAsSuccess(req: Ingest.TrainRequest, cfg: Deployment, svc: Ingest.Services)
    requires Ingest.ReachesIndex(req, cfg, svc)
    requires Ingest.BatchPhase(Ingest.SplitDocs(req, cfg, svc), 0, req.namespace, req.key, svc.upsert).1.None?
    ensures var docs := Ingest.SplitDocs(req, cfg, svc);
      && TrainSeen(req, cfg, svc).Stream?
      && SettingsClient.FirstDone(TrainSeen(req, cfg, svc).chunks) == Some(CeilDiv(|docs|, Ingest.BatchSize))
  {
    var docs := Ingest.SplitDocs(req, cfg, svc);
    var batches := Ingest.BatchPhase(docs, 0, req.namespace, req.key, svc.upsert).0;
    IndexedRunDelivery(req, cfg, svc);
    Ingest.BatchPercentsCount(docs, req.namespace, req.key, svc.upsert);
    FirstDoneAtEnd(Ingest.Percents(batches), None);
  }

  /** A batch that fails after the headers are out still reaches the page as
      status 200 followed by the error text and `[DONE]`; unless the error
      text itself holds the marker, the read loop stops at `[DONE]` and the
      page reports that embedding succeeded. */
  lemma LateFailureSeenAsSuccess(req: Ingest.TrainRequest, cfg: Deployment, svc: Ingest.Services)
    requires Ingest.ReachesIndex(req, cfg, svc)
    requires var err := Ingest.BatchPhase(Ingest.SplitDocs(req, cfg, svc), 0, req.namespace, req.key, svc.upsert).1;
      err.Some? && !Contains(err.value, SettingsClient.DoneMarker)
    ensures var batches := Ingest.BatchPhase(Ingest.SplitDocs(req, cfg, svc), 0, req.namespace, req.key, svc.upsert).0;
      && TrainSeen(req, cfg, svc).Stream?
      && SettingsClient.FirstDone(TrainSeen(req, cfg, svc).chunks) == Some(|Ingest.Percents(batches)| + 1)
  {
    var (batches, err) := Ingest.BatchPhase(Ingest.SplitDocs(req, cfg, svc), 0, req.namespace, req.key, svc.upsert);
    IndexedRunDelivery(req, cfg, svc);
    FirstDoneAtEnd(Ingest.Percents(batches), err);
  }

  /** After the progress chunks and an error text without the marker, the
      read loop stops at the final `[DONE]`. */
  lemma FirstDoneAtEnd(ps: seq<nat>, err: Option<string>)
    requires err.Some? ==> !Contains(err.value, SettingsClient.DoneMarker)
    ensures var extra := if err.Some? then [err.value] else [];
      SettingsClient.FirstDone(ProgressTexts(ps) + extra + [SettingsClient.DoneMarker]) == Some(|ps| + |extra|)
  {
    var extra := if err.Some? then [err.value] else [];
    var rest := extra + [SettingsClient.DoneMarker];
    assert ProgressTexts(ps) + extra + [SettingsClient.DoneMarker] == ProgressTexts(ps) + rest;
    assert SettingsClient.DoneMarker <= rest[|extra|][0..];
    FirstDoneUnique(rest, |extra|);
    ProgressChunksPassOver(ps, rest);
  }

  // ---------------------------------------------------------------------------
  // File names

  /** The path the ingestion endpoint reads each requested PDF from is the
      public address of the key the settings page uploaded it under: both
      sides remove the same first space from the name. */
  lemma UploadedKeyIsReadPath(cfg: Deployment, key: string, pdfList: seq<SettingsClient.UploadFile>,
                              chunkSize: int, namespace: string, stored: SettingsClient.Put -> bool)
    ensures var req := SettingsClient.TrainRequestFor(key, pdfList, chunkSize, namespace);
      forall k :: 0 <= k < |pdfList| && pdfList[k].mimeType == SettingsClient.PdfMimeType ==>
        Ingest.FilePath(cfg, req.files.value[k])
        == cfg.s3Path + SettingsClient.BeforeUploadPdf(cfg, pdfList[k], stored).put.value.key
  {
  }

  /** The Train button is enabled exactly when the request it sends names at
      least one file. So a request sent from the enabled button never gets
      the 400 "Parameter Error" answer: the endpoint's first step is fetching
      the first selected PDF. A request with no file would get that answer,
      and the page would report an error. */
  lemma EnabledTrainPassesParameterCheck(key: string, pdfList: seq<SettingsClient.UploadFile>, chunkSize: int,
                                         namespace: string, cfg: Deployment, svc: Ingest.Services)
    ensures var req := SettingsClient.TrainRequestFor(key, pdfList, chunkSize, namespace);
      && (SettingsClient.TrainEnabled(pdfList) <==> req.files.value != [])
      && (SettingsClient.TrainEnabled(pdfList) ==>
            Ingest.TrainSpec(req, cfg, svc)[0] == Ingest.Invoke(Ingest.FetchPdf(Ingest.FilePath(cfg, req.files.value[0]))))
      && (!SettingsClient.TrainEnabled(pdfList) ==> TrainSeen(req, cfg, svc) == SettingsClient.NotOk)
  {
    var req := SettingsClient.TrainRequestFor(key, pdfList, chunkSize, namespace);
    if SettingsClient.TrainEnabled(pdfList) {
      Ingest.ReadFilesFetchesFirst(req.files.value, cfg, svc.fetch);
    } else {
      EmptyFilesSeenAsError(req, cfg, svc);
    }
  }

  // ---------------------------------------------------------------------------
  // The chat window

  /** The window the query endpoint builds from a posted message list that
      ends with the question: the question itself is always left out, and of
      the turns before it all are kept up to 12, and otherwise the 11 before
      the newest. */
  lemma WindowLeavesOutQuestion(before: seq<Message>, question: Message)
    requires question.role == User
    ensures var t := QueryRouter.Turns(before);
      QueryRouter.Window(QueryRouter.Turns(before + [question]))
      == if |t| <= 12 then t else t[|t| - 12..|t| - 1]
  {
    var t := QueryRouter.Turns(before);
    QueryRouter.TurnsAppend(before, [question]);
    QueryRouter.TurnsOfOne(question);
    var h := t + [QueryRouter.Human(question.content)];
    QueryRouter.WindowShape(h);
    assert h[..|h| - 1] == t;
    if |t| > 12 {
      assert h[|h| - 13..|h| - 2] == t[|t| - 12..|t| - 1];
    }
  }

  /** The prepared list is the kept messages followed by the question. */
  lemma PreparedEndsWithQuestion(ms: seq<Message>, message: Message, deleteCount: int)
    requires Playback.PreparedMessages(ms, message, deleteCount).Success?
    ensures var p := Playback.PreparedMessages(ms, message, deleteCount).value;
      |p| >= 1 && p == p[..|p| - 1] + [message]
  {
    var p := Playback.PreparedMessages(ms, message, deleteCount).value;
    assert p[|p| - 1] == message;
  }

  /** What the page posts on send is the prepared list, which ends with the
      question; so the query endpoint's window never holds the question just
      asked, whether or not it is a resend. */
  lemma PostedWindow(c: Conversation, message: Message, deleteCount: int, session: Playback.Session)
    requires message.role == User
    requires Playback.PreparedMessages(c.messages, message, deleteCount).Success?
    ensures var ms := Playback.PreparedMessages(c.messages, message, deleteCount).value;
      var req := Playback.ChatRequest(c.(messages := ms), message, session);
      var t := QueryRouter.Turns(ms[..|ms| - 1]);
      && req.question == Some(message.content)
      && QueryRouter.Window(QueryRouter.Turns(req.messages)) == if |t| <= 12 then t else t[|t| - 12..|t| - 1]
  {
    var ms := Playback.PreparedMessages(c.messages, message, deleteCount).value;
    PreparedEndsWithQuestion(c.messages, message, deleteCount);
    var before := ms[..|ms| - 1];
    WindowLeavesOutQuestion(before, message);
  }
}
