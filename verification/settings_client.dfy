/** The settings page (`components/Chat/Settings.tsx`): uploading PDFs and an
    avatar image to object storage, saving the sampling settings, and asking
    the ingestion endpoint to train on the uploaded PDFs while reading its
    progress stream until `[DONE]`. Storage uploads and the HTTP response are
    inputs; the notifications shown are outputs. */
module SettingsClient {
  import opened Common
  import Ingest

  const PdfMimeType: string := "application/pdf"

  /** The end-of-stream marker the client looks for. */
  const DoneMarker: string := "[DONE]"

  /** A file picked in an upload widget: its name and MIME type. */
  datatype UploadFile = UploadFile(name: string, mimeType: string)

  datatype Tone = WarningTone | ErrorTone | SuccessTone

  /** A notification: its tone, title and description. */
  datatype Notice = Notice(tone: Tone, title: string, description: string)

  const ApiKeyMissing: Notice := Notice(WarningTone, "OpenAI API Key", "Please input OpenAI API key.")
  const EmbeddingFailed: Notice := Notice(ErrorTone, "Error", "OpenAI Embedding Error")
  const EmbedSucceeded: Notice := Notice(SuccessTone, "Success", "Embed Success")
  const NotPdf: Notice := Notice(WarningTone, "Warning", "Please upload PDF files")
  const Uploaded: Notice := Notice(SuccessTone, "Success", "Files were uploaded successfully")
  const UploadFailed: Notice := Notice(ErrorTone, "Error", "Upload Error")

  // ---------------------------------------------------------------------------
  // File names

  /** `name.replace(' ', '')`: removes the first space only. */
  function Normalise(name: string): string
  {
    if name == [] then []
    else if name[0] == ' ' then name[1..]
    else [name[0]] + Normalise(name[1..])
  }

  /** A name without spaces is left as it is. */
  lemma {:induction false} NormaliseNoSpace(name: string)
    requires forall j :: 0 <= j < |name| ==> name[j] != ' '
    ensures Normalise(name) == name
  {
    if name != [] {
      NormaliseNoSpace(name[1..]);
    }
  }

  /** Exactly the first space is removed; every later space stays. */
  lemma {:induction false} NormaliseFirstSpace(name: string, k: nat)
    requires k < |name| && name[k] == ' '
    requires forall j :: 0 <= j < k ==> name[j] != ' '
    ensures Normalise(name) == name[..k] + name[k + 1..]
  {
    if k > 0 {
      NormaliseFirstSpace(name[1..], k - 1);
      assert name[..k] == [name[0]] + name[1..][..k - 1];
      assert name[k + 1..] == name[1..][k..];
    }
  }

  /** Only the space after the first word goes: whatever follows it,
      later spaces included, is kept. */
  lemma SecondSpaceKept(first: string, rest: string)
    requires forall j :: 0 <= j < |first| ==> first[j] != ' '
    ensures Normalise(first + " " + rest) == first + rest
  {
    var name := first + " " + rest;
    NormaliseFirstSpace(name, |first|);
    assert name[..|first|] == first;
    assert name[|first| + 1..] == rest;
  }

  /** Storage key of an uploaded PDF. */
  function PdfKey(cfg: Deployment, name: string): string
  {
    cfg.pdfPath + Normalise(name)
  }

  /** Storage key of an uploaded avatar image. */
  function ImageKey(cfg: Deployment, name: string): string
  {
    cfg.imagePath + Normalise(name)
  }

  // ---------------------------------------------------------------------------
  // Uploads

  /** An upload to object storage. */
  datatype Put = Put(bucket: string, key: string)

  /** What `beforeUpload` tells the widget: keep the file in the list without
      uploading it again (`return false`), or drop it (`Upload.LIST_IGNORE`). */
  datatype Verdict = KeepInList | ListIgnore

  datatype UploadOutcome = UploadOutcome(put: Option<Put>, verdict: Verdict, notice: Notice)

  /** `beforeUpload` of the PDF widget; `stored` says whether the upload succeeds. */
  function BeforeUploadPdf(cfg: Deployment, file: UploadFile, stored: Put -> bool): (r: UploadOutcome)
    ensures r.put.Some? <==> file.mimeType == PdfMimeType
    ensures r.put.Some? ==> r.put.value == Put(cfg.bucketName, PdfKey(cfg, file.name))
    ensures r.verdict == KeepInList <==> r.put.Some? && stored(r.put.value)
    ensures r.verdict == KeepInList <==> r.notice == Uploaded
  {
    if file.mimeType != PdfMimeType then UploadOutcome(None, ListIgnore, NotPdf)
    else
      var put := Put(cfg.bucketName, PdfKey(cfg, file.name));
      if stored(put) then UploadOutcome(Some(put), KeepInList, Uploaded)
      else UploadOutcome(Some(put), ListIgnore, UploadFailed)
  }

  /** `handlebeforeUpload` of the avatar widget: any file type is uploaded. */
  function BeforeUploadImage(cfg: Deployment, file: UploadFile, stored: Put -> bool): (r: UploadOutcome)
    ensures r.put == Some(Put(cfg.bucketName, ImageKey(cfg, file.name)))
    ensures r.verdict == KeepInList <==> stored(r.put.value)
  {
    var put := Put(cfg.bucketName, ImageKey(cfg, file.name));
    if stored(put) then UploadOutcome(Some(put), KeepInList, Uploaded)
    else UploadOutcome(Some(put), ListIgnore, UploadFailed)
  }

  /** Whether the Train button is enabled. */
  predicate TrainEnabled(pdfList: seq<UploadFile>)
  {
    |pdfList| != 0
  }

  // ---------------------------------------------------------------------------
  // Saving the settings

  /** The form's fields. */
  datatype FormValues = FormValues(chunkSize: int, maxTokenLength: int, temperature: real, topp: real)

  /** The avatar: the picked image and the URL it is served from. */
  datatype Avatar = Avatar(file: UploadFile, url: string)

  datatype PageSettings = PageSettings(
    chunkSize: int, maxTokenLength: int, temperature: real, topp: real, avatar: Option<Avatar>)

  /** `onFinish`: the settings record handed to the page. */
  function OnFinish(cfg: Deployment, e: FormValues, imageList: seq<UploadFile>): PageSettings
  {
    PageSettings(e.chunkSize, e.maxTokenLength, e.temperature, e.topp,
                 if |imageList| > 0 then Some(Avatar(imageList[0], cfg.s3Path + cfg.imagePath + Normalise(imageList[0].name)))
                 else None)
  }

  /** The form's values are copied as they are. There is an avatar exactly when
      an image was picked, and its URL is the public address of the key the
      first image was uploaded under. */
  lemma OnFinishEffect(cfg: Deployment, e: FormValues, imageList: seq<UploadFile>, stored: Put -> bool)
    ensures var s := OnFinish(cfg, e, imageList);
      && FormValues(s.chunkSize, s.maxTokenLength, s.temperature, s.topp) == e
      && (s.avatar.Some? <==> imageList != [])
      && (s.avatar.Some? ==>
            && s.avatar.value.file == imageList[0]
            && s.avatar.value.url == cfg.s3Path + BeforeUploadImage(cfg, imageList[0], stored).put.value.key)
  {
  }

  // ---------------------------------------------------------------------------
  // Training

  /** The ingestion request for the picked PDFs. */
  function TrainRequestFor(key: string, pdfList: seq<UploadFile>, chunkSize: int, namespace: string)
    : (r: Ingest.TrainRequest)
    ensures r.files.Some? && |r.files.value| == |pdfList|
    ensures forall k :: 0 <= k < |pdfList| ==> r.files.value[k].filename == Normalise(pdfList[k].name)
  {
    Ingest.TrainRequest(
      Some(seq(|pdfList|, k requires 0 <= k < |pdfList| => Ingest.FileRef(Normalise(pdfList[k].name)))),
      chunkSize, namespace, key)
  }

  /** The ingestion endpoint's response as the client sees it: not ok, ok
      without a body, or the texts its reader yields before the end. */
  datatype TrainResponse = NotOk | NoBody | Stream(chunks: seq<string>)

  /** `isEmpty` of the stored key: missing or empty. */
  predicate IsEmptyKey(key: Option<string>)
  {
    key.None? || key.value == ""
  }

  /** The first chunk that contains `[DONE]`, if any. */
  function FirstDone(chunks: seq<string>): (r: Option<nat>)
    ensures r.Some? ==> r.value < |chunks| && Contains(chunks[r.value], DoneMarker)
    ensures r.Some? ==> forall j :: 0 <= j < r.value ==> !Contains(chunks[j], DoneMarker)
    ensures r.None? ==> forall j :: 0 <= j < |chunks| ==> !Contains(chunks[j], DoneMarker)
  {
    if chunks == [] then None
    else if Contains(chunks[0], DoneMarker) then Some(0)
    else match FirstDone(chunks[1..])
      case None => None
      case Some(k) => Some(k + 1)
  }

  /** What training leaves behind: the request sent, the notifications shown,
      whether the spinner still shows, and how many reads were made. */
  datatype TrainOutcome = TrainOutcome(request: Option<Ingest.TrainRequest>, notices: seq<Notice>, loading: bool, readCount: nat)

  /** `trainWithDocuments`. */
  method TrainWithDocuments(storedKey: Option<string>, pdfList: seq<UploadFile>, chunkSize: int, namespace: string,
                            response: TrainResponse, loading: bool)
    returns (out: TrainOutcome)
    ensures IsEmptyKey(storedKey) ==> out == TrainOutcome(None, [ApiKeyMissing], loading, 0)
    ensures !IsEmptyKey(storedKey) ==>
      && out.request == Some(TrainRequestFor(storedKey.value, pdfList, chunkSize, namespace))
      && match response
         case NotOk => out.notices == [EmbeddingFailed] && !out.loading && out.readCount == 0
         case NoBody => out.notices == [EmbeddingFailed] && !out.loading && out.readCount == 0
         case Stream(chunks) =>
           match FirstDone(chunks)
           case Some(k) => out.notices == [EmbedSucceeded] && !out.loading && out.readCount == k + 1
           case None => out.notices == [] && out.loading && out.readCount == |chunks| + 1
  {
    if IsEmptyKey(storedKey) {
      return TrainOutcome(None, [ApiKeyMissing], loading, 0);
    }
    var request := TrainRequestFor(storedKey.value, pdfList, chunkSize, namespace);
    if response.NotOk? || response.NoBody? {
      return TrainOutcome(Some(request), [EmbeddingFailed], false, 0);
    }
    var chunks := response.chunks;
    var done := false;
    var readCount := 0;
    while !done
      invariant readCount <= |chunks| + 1
      invariant done <==> readCount == |chunks| + 1
      invariant forall j :: 0 <= j < readCount && j < |chunks| ==> !Contains(chunks[j], DoneMarker)
      decreases |chunks| + 1 - readCount
    {
      var chunkValue: string;
      var doneReading: bool;
      if readCount < |chunks| {
        chunkValue, doneReading := chunks[readCount], false;
      } else {
        chunkValue, doneReading := "", true;     // the final read; decoding no value gives ''
      }
      readCount := readCount + 1;
      done := doneReading;
      if Contains(chunkValue, DoneMarker) {
        return TrainOutcome(Some(request), [EmbedSucceeded], false, readCount);
      }
    }
    out := TrainOutcome(Some(request), [], true, readCount);
  }

  /** A progress number written in the same chunk as the marker still ends
      the read loop. */
  lemma MergedChunkEndsLoop()
    ensures FirstDone(["30", "99[DONE]"]) == Some(1)
  {
    assert DoneMarker <= "99[DONE]"[2..];
    DigitsContainNoBracket("30", DoneMarker);
  }
}
