# Document chat: ingestion, query routing and the chat client

This project models the core of a retrieval-augmented chat application. It
has two Next.js API routes and two browser components.

- **Ingestion endpoint** (`pages/api/train.ts`, module `Ingest`).
  - It reads each uploaded PDF, page by page, into one document.
  - It has a text splitter cut the documents into chunks.
  - It embeds and upserts the chunks into a namespaced Pinecone index, 50 per batch.
  - It streams a progress percentage before each batch.
  - Whatever happens, it writes `[DONE]` and ends the response.
  - The handler is an imperative method (`Ingest.Handle` and its loops), proved equal to a reference trace function (`Ingest.TrainSpec`). The properties are lemmas about that function.
- **Query endpoint** (`pages/api/chat1.ts`, module `QueryRouter`).
  - It sanitises the question.
  - It cuts a history window out of the posted messages.
  - When the window is not empty, it has a chain condense the question into a standalone one, and insists on exactly one output value.
  - It then routes: when the top similarity score is strictly above 0.8, the answer comes from the QA chain over retrieved documents; otherwise it comes from a conversation chain seeded with the window.
- **Chat page** (`pages/index.tsx`).
  - Module `Home`: the folder, conversation and prompt list handlers, as functions from the lists to the new lists.
  - Module `Playback`: `handleSend`. It prepares the message list (a resend drops the last exchange), posts the question, and reveals the answer one character per timer tick. Playback can complete, appending a numbered source annotation and saving the conversation list, or it can stop when the user asks.
- **Settings page** (`components/Chat/Settings.tsx`, module `SettingsClient`).
  - Uploads PDFs and the avatar image under keys whose first space is removed.
  - Saves the sampling settings.
  - `trainWithDocuments`: calls the ingestion endpoint and reads its stream until a chunk contains `[DONE]`.
- **Module `Protocol`** connects the two sides.
  - It models how Node's `ServerResponse` delivers the ingestion trace: the status goes out with the first write, and nothing is delivered after `end`.
  - It proves what the settings page then observes on each path.
  - It proves that the window the query endpoint builds from the page's posted list never holds the question just asked.

External services are parameters. These are PDF.js, the splitter, Pinecone, the embedding and chat models, S3 uploads, and `fetch` responses. Each one is a function-typed field of a services record, or an input value. The calls made to them are recorded in order. Each step of the ingestion endpoint that can throw is a service that returns a value or fails with its error. These steps are the fetch, building the splitter and splitting, `pinecone.init`, the embeddings constructor and each upsert.

`ChatTypes` holds the client's records. `Common` holds shared helpers:
- `Math.ceil` of a quotient;
- `join('')`;
- decimal rendering of numbers, together with its inverse;
- `includes`;
- `filter`.

Where the code and the design description disagree, the model follows the code:
- The design caps the history window at 11 entries. The code removes the newest turn, then keeps every remaining turn while there are at most 12, and applies `slice(length - 12, length - 1)` only when there are more. So the window can hold 12 turns, and holds 11 only when there are more than 12 (`QueryRouter.WindowShape`).
- The design says the open path uses the request's system instruction (or a default). The code computes `promptToSend` but never uses it, and it never reads `model`. The model therefore proves the response independent of both (`QueryRouter.PromptAndModelIgnored`).
- The design calls more than one condensation output a fault. The code fails on any count other than one, zero included.

## Model

| member | source | states |
|---|---|---|
| Common.CeilDiv | pages/api/train.ts:75 | The result is the least q with q * b >= a: `Math.ceil(a / b)` for naturals. |
| Common.ConcatAppend | pages/api/train.ts:35 | Joining with '' inserts nothing between two parts: `Concat(a + b) == Concat(a) + Concat(b)`. |
| Common.NatToString | pages/api/train.ts:75 | The decimal text of a percentage is non-empty, all digits, with no leading zero. |
| Common.DigitsValueOfNatToString | components/Chat/Settings.tsx:166 | Reading back a rendered number (`+chunkValue`) gives the number written. |
| Common.NatToStringInjective | pages/api/train.ts:75 | Distinct percentages are written as distinct texts. |
| Common.DigitsContainNoBracket | components/Chat/Settings.tsx:165 | A digits-only chunk never contains `[DONE]`. |
| Common.Filter | pages/api/chat1.ts:67 | `filter` keeps only elements passing the test, keeps every one that passes, and never grows the list. |
| Common.FilterAppend | pages/api/chat1.ts:67 | `filter` distributes over concatenation, so it keeps relative order. |
| Common.FilterKeepsAll | pages/api/chat1.ts:67 | Filtering with a test every element passes changes nothing. |
| Ingest.PdfTextIsItemConcatenation | pages/api/train.ts:31-36 | A PDF's text is all its items concatenated, page after page, with no separator. |
| Ingest.ExtractText | pages/api/train.ts:31-36 | The page loop leaves exactly the PDF's text. |
| Ingest.ReadAll | pages/api/train.ts:26-44 | The file loop fetches and reads exactly as the reference `ReadFiles`: in request order, stopping at the first failure. |
| Ingest.ReadFilesAllFetched | pages/api/train.ts:26-44 | When every fetch succeeds: one fetch per file from `s3Path + pdfPath + filename`, in order, and one document per file whose text is the PDF's text and whose source is the file name. |
| Ingest.ReadFilesStopsAtFailure | pages/api/train.ts:28-29 | The first file that cannot be fetched ends reading with its error; no later file is fetched. |
| Ingest.ReadFilesFetchesFirst | pages/api/train.ts:24-27 | Reading a non-empty file list starts by fetching the first file from its storage path. |
| Ingest.ReadFilesFailureSticks | pages/api/train.ts:26-44 | Once reading a prefix has failed, further files change nothing. |
| Ingest.ReadFilesOnlyFetch | pages/api/train.ts:26-44 | Reading performs only PDF fetches. |
| Ingest.BatchesPartition | pages/api/train.ts:73-74 | The batches concatenate back to the documents, in order. |
| Ingest.BatchShape | pages/api/train.ts:73-74 | The k-th batch is `docs.slice(50k, 50k + 50)`: non-empty, and exactly 50 long unless it is the last. |
| Ingest.BatchCount | pages/api/train.ts:66-73 | There are ceil(n / 50) batches of n documents. |
| Ingest.ProgressBounds | pages/api/train.ts:75 | Every percentage written before a batch lies in [30, 100], and the first is 30. |
| Ingest.ProgressMonotone | pages/api/train.ts:75 | A later batch never gets a smaller percentage. |
| Ingest.EmbedBatches | pages/api/train.ts:73-85 | The batch loop produces exactly the reference `BatchPhase`: a progress write and an upsert per batch, stopping at the first failed upsert with its error. |
| Ingest.BatchPhaseStep | pages/api/train.ts:73-85 | One pass of the loop: write the progress, upsert `docs.slice(i, i + 50)`, then stop on an error or continue at i + 50. |
| Ingest.BatchStepExtends | pages/api/train.ts:73-85 | One pass extends the events so far; either its error ends the phase or the rest of the phase follows. |
| Ingest.BatchPhaseEvents | pages/api/train.ts:73-85 | For every attempted batch k: event 2k writes its progress and event 2k+1 upserts exactly batch k into the request's namespace with its key. |
| Ingest.BatchPhaseLength | pages/api/train.ts:73-85 | Two events per attempted batch; no more batches are attempted than exist. |
| Ingest.BatchPhaseEventAt | pages/api/train.ts:73-85 | The progress and upsert events of the k-th attempted batch. |
| Ingest.BatchPhaseStops | pages/api/train.ts:73-89 | All batches before the last attempted one succeeded. The loop stopped early exactly when a batch failed, and then with that batch's error; otherwise every batch was attempted and succeeded. |
| Ingest.BatchPhaseKinds | pages/api/train.ts:73-85 | The batch loop only writes progress frames and upserts. |
| Ingest.Handle | pages/api/train.ts:15-94 | The handler does exactly what the reference `TrainSpec` says, in the same order, including a split, `pinecone.init` or embeddings-constructor failure caught before the header. |
| Ingest.EmptyFilesRejected | pages/api/train.ts:45-48 | An empty or missing file list is answered status 400 with the JSON 'Parameter Error', then `[DONE]` and end. Nothing is fetched, split, initialised or embedded. |
| Ingest.SplitUsesConfiguredOverlap | pages/api/train.ts:50-55 | Right after the last fetch, the splitter is called once on the documents read, with the request's chunk size and the deployment's fixed overlap. |
| Ingest.DoneWrittenOnceLast | pages/api/train.ts:86-93 | On every path (the 400 answer, a failed read, split, index initialisation, embeddings constructor or batch, and success), `[DONE]` is written exactly once, immediately followed by `end`, and these are the last two operations. |
| Ingest.SetupFailureCaught | pages/api/train.ts:50-89 | When the files are read but the split, `pinecone.init` or the embeddings constructor throws, the run ends with status 500 and that error, then `[DONE]` and end; before that come only service calls, no header and no upsert. |
| Ingest.IndexedDoneLast | pages/api/train.ts:68-93 | The same on a run that reaches the index. |
| Ingest.IndexedHeadKinds | pages/api/train.ts:26-72 | Before the batch loop, an indexed run only calls services and sends the 200 header. |
| Ingest.TailDoneLast | pages/api/train.ts:86-93 | After a head and batch events that hold neither, the `catch`/`finally` tail puts `[DONE]` and `end` last. |
| Ingest.FinallyLast | pages/api/train.ts:90-93 | A trace ending with the `finally` block, with neither `[DONE]` nor `end` before it, has them last. |
| Ingest.PercentsAppend | pages/api/train.ts:75 | The percentages of a concatenated trace are those of its parts. |
| Ingest.BatchPercents | pages/api/train.ts:73-75 | One percentage per attempted batch; the k-th is the progress of the batch starting at 50k. |
| Ingest.StepPercents | pages/api/train.ts:73-75 | One pass writes one percentage, followed by those of the rest when its upsert succeeds. |
| Ingest.BatchPercentsLength | pages/api/train.ts:73-75 | Two batch-loop events per percentage written. |
| Ingest.BatchPercentAt | pages/api/train.ts:73-75 | The k-th percentage is `30 + ceil(70 * 50k / n)`. |
| Ingest.IndexedRunTrace | pages/api/train.ts:19-93 | A run that reaches the index is: the fetches, the split, the index initialisation, the header, the batch loop, then `catch` and `finally`. |
| Ingest.PercentsOfRun | pages/api/train.ts:73-75 | Only the batch loop writes percentages; a run that does not reach the index writes none. |
| Ingest.BatchPercentsBounded | pages/api/train.ts:75 | The percentages written lie in [30, 100], never decrease, and start at 30. |
| Ingest.BatchPercentsCount | pages/api/train.ts:73-85 | No percentage for an empty chunk list; at most ceil(n / 50); exactly that many when no batch fails. |
| Ingest.ProgressFrames | pages/api/train.ts:68-93 | For any request: the progress frames lie in [30, 100], never decrease, and start at 30. On an indexed run there are none for no chunks and ceil(n / 50) when all batches succeed. |
| Ingest.NoPercents | pages/api/train.ts:75 | A trace with no progress write has no percentages. |
| Ingest.BatchFailureStops | pages/api/train.ts:73-89 | Batches are upserted strictly in order. When batch m fails, no later batch is attempted, and the run ends with the error, `[DONE]` and `end`. |
| QueryRouter.TrimStart | pages/api/chat1.ts:30 | The result is a suffix of the input, preceded only by white space, and does not start with white space. |
| QueryRouter.DropLeadingSpace | pages/api/chat1.ts:30 | Dropping one leading white-space character keeps the suffix property. |
| QueryRouter.TrimEnd | pages/api/chat1.ts:30 | The result is a prefix of the input, followed only by white space, and does not end with white space. |
| QueryRouter.DropTrailingSpace | pages/api/chat1.ts:30 | Dropping one trailing white-space character keeps the prefix property. |
| QueryRouter.Trim | pages/api/chat1.ts:30 | `trim()` gives the part of the input between leading and trailing white space; the result neither starts nor ends with white space. |
| QueryRouter.TrimmedMiddle | pages/api/chat1.ts:30 | Trimming the start and then the end leaves a middle part with only white space around it. |
| QueryRouter.SanitizeShape | pages/api/chat1.ts:30 | The sanitised question has no newline, is as long as the trimmed question, and agrees with it except that newlines became spaces. |
| QueryRouter.TrimUnchanged | pages/api/chat1.ts:30 | A string that neither starts nor ends with white space is its own trim. |
| QueryRouter.NoNewlineUnchanged | pages/api/chat1.ts:30 | `replaceAll('\n', ' ')` leaves a text without newlines unchanged. |
| QueryRouter.SanitizeIdempotent | pages/api/chat1.ts:30 | Sanitising twice is the same as sanitising once. |
| QueryRouter.ReplacedTrimmedFixed | pages/api/chat1.ts:30 | A trimmed text with its newlines replaced is a fixed point of sanitising. |
| QueryRouter.TurnsAppend | pages/api/chat1.ts:67-70 | The history of a concatenation is the concatenation of the histories. |
| QueryRouter.TurnsOfAppend | pages/api/chat1.ts:67-70 | Mapping messages to turns distributes over concatenation. |
| QueryRouter.TurnsOfOne | pages/api/chat1.ts:67-70 | A source annotation gives no turn, a user message a human turn, an assistant message an AI turn. |
| QueryRouter.WindowShape | pages/api/chat1.ts:71-75 | The window never holds more than 12 turns. With n turns it is empty for n = 0, the first n - 1 for n <= 13, and the 11 turns at n - 13 .. n - 3 otherwise; so it never contains the newest turn. |
| QueryRouter.Handle | pages/api/chat1.ts:19-138 | The handler makes exactly the calls and gives exactly the response of the reference `QuerySpec`. |
| QueryRouter.CondenseQuestion | pages/api/chat1.ts:77-95 | The condensing step agrees with the reference `Condensation`: identity without history, else the chain's single value or the error. |
| QueryRouter.Route | pages/api/chat1.ts:97-132 | Search, routing and answering agree with the reference `Answering`. |
| QueryRouter.NoQuestionRejected | pages/api/chat1.ts:26-28 | A missing or empty question is answered 400 'No question in the request' with no service called. |
| QueryRouter.PromptAndModelIgnored | pages/api/chat1.ts:39-62 | The request's prompt and model change neither the calls nor the response. |
| QueryRouter.PipelineIgnoresPromptAndModel | pages/api/chat1.ts:65-132 | The `try` block reads neither the prompt nor the model. |
| QueryRouter.AnsweringCalls | pages/api/chat1.ts:97-132 | Answering starts with the top-1 search for the standalone question and never condenses. |
| QueryRouter.QuerySpecConnected | pages/api/chat1.ts:32-54 | With the index and store opened, the calls are those two, then the `try` block's. |
| QueryRouter.EmptyWindowSkipsCondensation | pages/api/chat1.ts:78-97 | With an empty window, no condensation call is made, and the sanitised question itself is searched for. |
| QueryRouter.PipelineWithoutHistory | pages/api/chat1.ts:78-97 | The `try` block with an empty window is the answering step alone. |
| QueryRouter.CondensedAfterConnecting | pages/api/chat1.ts:34-54 | Opening the index and the store first shifts the condensation call to position 2. |
| QueryRouter.NonEmptyWindowCondensesOnce | pages/api/chat1.ts:79-97 | With a non-empty window the chain is called exactly once, on the sanitised question and the window, right after the index and store. A single value is the next question searched for; any other count fails the request with the error, before any search. |
| QueryRouter.PipelineCondenses | pages/api/chat1.ts:79-97 | The same for the `try` block alone, with the condensation call first. |
| QueryRouter.RouteByTopScore | pages/api/chat1.ts:99-132 | After a successful search the answer uses retrieval exactly when the top score is strictly above 0.8, and the conversation with the window otherwise. The grounded path passes no history. |
| QueryRouter.ThresholdIsStrict | pages/api/chat1.ts:99 | A top score of exactly 0.8 takes the open path. |
| QueryRouter.AnswerIsChainText | pages/api/chat1.ts:110-131 | A 200 answer carries exactly the text of the chain that produced it. |
| Home.ReplaceConversationEffect | pages/index.tsx:195-207 | Exactly the conversations with the id are replaced, and the length is kept. An empty list becomes the single updated conversation. |
| Home.ReplaceConversationStable | pages/index.tsx:195-207 | Replacing twice is replacing once; a non-empty list without the id is unchanged. |
| Home.EditKeepsPrefix | pages/index.tsx:515-521 | Editing keeps exactly the messages before the edited index, in order. |
| Home.EditMessage | pages/index.tsx:513-527 | There is an edited conversation exactly when one is selected. It is the selected one with only its messages cut before the index. |
| Home.CreateFolder | pages/index.tsx:360-371 | The new folder is appended, with the given id, name and type; everything else is unchanged. |
| Home.RenameFolderEffect | pages/index.tsx:405-419 | Only the names of folders with that id change; ids, types and length are kept. |
| Home.DeleteFolderEffect | pages/index.tsx:373-403 | Only the folders with that id are removed and no folder is added. A conversation or prompt that was in that folder ends up in no folder; every other one keeps its folder; nothing else about any of them changes, and none is added or removed. |
| Home.DeleteConversationEffect | pages/index.tsx:451-474 | No conversation with the id remains, every other one does, and none is added. The selection is the last one left, or else a new blank conversation named "New conversation" outside any folder. |
| Home.ClearConversationsEffect | pages/index.tsx:494-511 | No conversations remain; exactly the prompt folders are kept and no folder is added; prompts are untouched; the selection is a new blank conversation named "New conversation" outside any folder. |
| Home.CreatePromptEffect | pages/index.tsx:542-558 | A blank prompt is appended outside any folder, and the existing prompts are untouched. Two prompts created in a row get different names. |
| Home.UpdatePromptEffect | pages/index.tsx:560-571 | Exactly the prompts with that id become the given prompt, and the length is kept. Updating twice is updating once. |
| Home.DeletePromptEffect | pages/index.tsx:573-577 | Every prompt with the id is removed, the others are kept, none is added, and the other lists are unchanged. |
| Playback.PrepareMessages | pages/index.tsx:96-114 | The pop loop and append agree with the reference `PreparedMessages`. |
| Playback.PreparedShape | pages/index.tsx:96-114 | A resend from an empty list throws. Otherwise the list posted is a prefix of the old one followed by the question: nothing removed without resend or with a negative count, three after a source annotation (all when fewer are left), `deleteCount` otherwise. |
| Playback.SourceTextStartsWithFirst | pages/index.tsx:175-180 | The annotation starts with `Source 1:` and the first excerpt's entry. |
| Playback.SourceTextAppend | pages/index.tsx:175-180 | Entries already written are never changed by later excerpts. |
| Playback.AnnotateSources | pages/index.tsx:176-180 | The `forEach` loop builds exactly the numbered annotation. |
| Playback.TicksOutcome | pages/index.tsx:173-263 | Playback runs on while no tick found the answer complete or the flag set, one character per tick. It completes exactly when the flag stays clear for every character, so a stop on the completing tick is too late. It is cancelled at the first set flag, with the characters before it shown. |
| Playback.TicksEnded | pages/index.tsx:213-216 | Ticks after the timer is cleared change nothing. |
| Playback.Play | pages/index.tsx:170-263 | The interval callback agrees with the reference `Ticks`. It saves the conversation list, with the conversation replaced, exactly when playback ends. |
| Playback.PlaybackKeepsHistory | pages/index.tsx:158-263 | Playback never changes the earlier messages. The answer shown is a prefix of the full answer, and all of it on completion. A source annotation is added only on completion with excerpts. |
| Playback.Send | pages/index.tsx:92-265 | Without a selection nothing happens. A failed resend throws. Otherwise the prepared list and the question are posted; a response that is not ok or has no body ends loading with no answer; a parsed answer is played back, and the list is saved exactly when playback ends. |
| SettingsClient.NormaliseNoSpace | components/Chat/Settings.tsx:116 | A name without spaces is kept as it is. |
| SettingsClient.NormaliseFirstSpace | components/Chat/Settings.tsx:116 | `replace(' ', '')` removes exactly the first space. |
| SettingsClient.SecondSpaceKept | components/Chat/Settings.tsx:116 | Spaces after the first are kept. |
| SettingsClient.BeforeUploadPdf | components/Chat/Settings.tsx:199-242 | Only PDFs are uploaded, to the bucket under `pdfPath` plus the normalised name. The file stays in the list exactly when the upload succeeds, and exactly then the success notice is shown. |
| SettingsClient.BeforeUploadImage | components/Chat/Settings.tsx:64-94 | Any file is uploaded under `imagePath` plus the normalised name, and kept in the list exactly when the upload succeeds. |
| SettingsClient.OnFinishEffect | components/Chat/Settings.tsx:43-58 | The form values are copied unchanged. There is an avatar exactly when an image was picked, and its URL is the public address of the key the first image was uploaded under. |
| SettingsClient.TrainRequestFor | components/Chat/Settings.tsx:114-132 | One file entry per picked PDF, in order, named by its normalised name. |
| SettingsClient.FirstDone | components/Chat/Settings.tsx:161-176 | The position of the first chunk containing `[DONE]`; none before it contains the marker. |
| SettingsClient.TrainWithDocuments | components/Chat/Settings.tsx:103-177 | With no key only the warning is shown and nothing is sent. Not ok or no body gives the error notice. Otherwise the read loop stops at the first chunk with `[DONE]` and reports success, or runs past the end still loading. |
| SettingsClient.MergedChunkEndsLoop | components/Chat/Settings.tsx:165 | A progress number delivered in the same chunk as the marker still ends the loop. |
| Protocol.DeliverAppend | pages/api/train.ts:68-93 | Delivering two operation lists is delivering their concatenation. |
| Protocol.DeliverAfterEnd | pages/api/train.ts:90-93 | Nothing is delivered after the response has ended. |
| Protocol.ResponsesAppend | pages/api/train.ts:68-93 | The response operations of a concatenation are those of its parts. |
| Protocol.CallsRespondNothing | pages/api/train.ts:26-64 | Service calls are not response operations. |
| Protocol.OnlyResponses | pages/api/train.ts:86-93 | A trace of response operations only is exactly those operations. |
| Protocol.TailResponses | pages/api/train.ts:86-93 | The `catch` and `finally` blocks perform: status 500 and the error (if any), then `[DONE]` and `end`. |
| Protocol.BatchResponses | pages/api/train.ts:73-85 | The batch loop's only response operations are its progress writes. |
| Protocol.DeliverProgress | pages/api/train.ts:75 | Once the header is out, each progress write arrives as one chunk with its decimal text. |
| Protocol.EmptyFilesSeenAsError | pages/api/train.ts:45-48 | The 400 answer ends the response, so the `[DONE]` written afterwards never arrives, and the page sees a failed response. |
| Protocol.EnabledTrainPassesParameterCheck | components/Chat/Settings.tsx:337 | The Train button is enabled exactly when the request names at least one file; such a request starts with a fetch of the first PDF, never the 400 answer, while a request with no file is seen as a failure. |
| Protocol.DeliverTail | pages/api/train.ts:86-93 | The 500 is sent only if no header went out before. The error text and then `[DONE]` arrive, and the response ends. |
| Protocol.EarlyFailureSeenAsError | pages/api/train.ts:86-89 | A run with files that does not reach the batch loop (failed read, split, index initialisation or embeddings constructor) is answered 500 before any header, so the page reports an error. |
| Protocol.IndexedRunResponses | pages/api/train.ts:68-93 | An indexed run performs: header 200, one progress write per attempted batch, then `catch` and `finally`. |
| Protocol.IndexedRunDelivery | pages/api/train.ts:68-93 | On an indexed run the page receives status 200, the progress texts, the error text if a batch failed (its 500 comes too late), then `[DONE]`. |
| Protocol.ProgressChunksPassOver | components/Chat/Settings.tsx:161-166 | The read loop passes over every progress chunk. |
| Protocol.FirstDoneUnique | components/Chat/Settings.tsx:161-176 | A chunk holding the marker with none before it is where the loop stops. |
| Protocol.CompletedRunSeenAsSuccess | components/Chat/Settings.tsx:161-176 | A run that embeds every batch ends the page's loop at `[DONE]` after ceil(n / 50) progress chunks, and the page reports success. |
| Protocol.LateFailureSeenAsSuccess | pages/api/train.ts:86-93 | A batch that fails after the header is still seen as status 200. Unless the error text contains the marker, the loop stops at `[DONE]` and the page reports that embedding succeeded. |
| Protocol.FirstDoneAtEnd | components/Chat/Settings.tsx:161-176 | After progress chunks and an error text without the marker, the loop stops at the final `[DONE]`. |
| Protocol.UploadedKeyIsReadPath | pages/api/train.ts:28 | Each PDF the endpoint reads is at the public address of the key the settings page uploaded it under. |
| Protocol.WindowLeavesOutQuestion | pages/api/chat1.ts:67-75 | For a list ending with the question, the window leaves out the question and keeps the earlier turns: all of them up to 12, otherwise the 11 before the newest. |
| Protocol.PreparedEndsWithQuestion | pages/index.tsx:105-113 | The prepared list is the kept messages followed by the question. |
| Protocol.PostedWindow | pages/index.tsx:120-128 | What the page posts carries the question, and the endpoint's window from it never holds the question, resend or not. |

## Left out

- Rendering, React state hooks, `localStorage` persistence, notification durations and spinner details beyond the `loading` flag are not modelled.
- The splitter, Pinecone, the OpenAI models, the LangChain chains, PDF.js and S3 are oracles given as parameters. Their internals are not modelled.
- `JSON.stringify(error)` and the errors the services throw are opaque strings. A JSON body `res.json(s)` of a plain string is `"` + s + `"`, assuming no escapes are needed.
- Temperature and top-p are `real` values passed through unchanged. The percentage is computed with integers (`CeilDiv`), which equals `Math.ceil(70 * i / n)` for these non-negative integers.
- The 5 ms interval is a sequence of ticks, each carrying the stop flag's value at that tick. Time itself is not modelled.
- Network chunking: each `res.write` is assumed to arrive as one chunk. `MergedChunkEndsLoop` shows one merged case.
- `pinecone.Index(…)` in the ingestion endpoint is taken not to throw.
- `console.log`, the `process.env` fallbacks and Node's behaviour for writes after `end` beyond dropping them are not modelled.
- S3 upload progress events and the loading flag they toggle are not modelled.
- `handleSend` reads `response.json()` before checking `response.body`. The model takes the parsed reply as an input and does not model a body that fails to parse.
- The other handlers of `pages/index.tsx` are not part of this model: fetching models, import and export, new conversation, updating a conversation's fields, and settings changes.
- `updateConversation`, which `handleEditMessage` uses to write the edited conversation back into the list, is not part of this model. `Home.EditMessage` gives the edited selection only.
- `Playback.Send`: the conversation saved to storage on completion is not modelled separately from the list saved.
- Playback.Play: answers are Dafny strings, sequences of Unicode scalar values, and one tick reveals one scalar. The page indexes `allText` in UTF-16 code units, so for a character outside the Basic Multilingual Plane it takes two ticks, and a stop between them saves half a surrogate pair. The model does not capture that tick count or that half character.
- Playback.Send: the answer it plays back has the same scalar-versus-UTF-16 difference as `Playback.Play`.
- The `Ingest.ProgressAt` frame is computed from the batch's start index, as the code does.
