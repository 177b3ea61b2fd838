/** The question-answering endpoint (`pages/api/chat1.ts`).

    A request carries a question and the conversation so far. The handler
    sanitises the question, cuts a window out of the conversation, has a model
    rewrite the question as a standalone one when the window is not empty,
    and then answers either from the indexed documents (when the best match
    scores above 0.8) or as an open conversation seeded with the window.

    Pinecone, the embedding model and the LangChain chains are the fields of
    a `QueryServices` record; the calls made to them are recorded in order. */
module QueryRouter {
  import opened Common
  import opened ChatTypes

  /** Body message of the 400 answer. */
  const NoQuestionMessage: string := "No question in the request"

  /** Message of the error thrown when condensation returns other than one value. */
  const MultipleValuesError: string := "Return from llm chain has multiple values, only single values supported."

  /** Similarity a match must exceed for the answer to be grounded in documents. */
  const GroundingThreshold: real := 0.8

  /** Sampling settings, passed through to every model call unchanged. */
  datatype Sampling = Sampling(temperature: real, maxTokenLength: int, topp: real)

  /** The request body. `question` is None when the field is missing. */
  datatype QueryRequest = QueryRequest(
    question: Option<string>,
    messages: seq<Message>,
    key: string,              // the model provider's API key
    model: string,
    prompt: Option<string>,
    settings: Sampling,
    namespace: string)

  /** A chat-history entry as LangChain holds it. */
  datatype Turn = Human(text: string) | AI(text: string)

  /** A search hit: the matched text and its similarity score. */
  datatype Match = Match(pageContent: string, score: real)

  /** The external services. A failing call yields its error. */
  datatype QueryServices = QueryServices(
    initIndex: Option<string>,                                        // `pinecone.init`
    openStore: Option<string>,                                        // `PineconeStore.fromExistingIndex`
    condense: (string, seq<Turn>, Sampling, string) -> Result<seq<(string, string)>, string>,  // keys and values
    search: (string, string, string) -> Result<seq<Match>, string>,  // top-1 search (question, namespace, key)
    retrieve: (string, string, string) -> Result<seq<string>, string>,  // retriever (question, namespace, key)
    answerFromDocs: (string, seq<string>, Sampling, string) -> Result<string, string>,  // QA chain's `text`
    converse: (string, seq<Turn>, Sampling, string) -> Result<string, string>)          // conversation's `response`

  datatype Call =
    | InitIndex
    | OpenStore(namespace: string, key: string)
    | Condense(question: string, history: seq<Turn>, sampling: Sampling, key: string)
    | Search(question: string, namespace: string, key: string)
    | Retrieve(question: string, namespace: string, key: string)
    | AnswerFromDocs(question: string, docs: seq<string>, sampling: Sampling, key: string)
    | Converse(question: string, history: seq<Turn>, sampling: Sampling, key: string)

  /** What the client receives: 200 `{data}`, 400 `{message}`, 500 with the
      caught error, or an exception that escapes the handler (raised before
      its `try`). */
  datatype QueryResponse =
    | Answer(data: string)
    | Rejected(message: string)
    | Failed(error: string)
    | Unhandled(error: string)

  /** `!question` for a string-valued field. */
  predicate IsFalsy(q: Option<string>)
  {
    q.None? || q.value == ""
  }

  // ---------------------------------------------------------------------------
  // Sanitising the question

  /** The characters `String.prototype.trim` removes: the white-space and
      line-terminator code points of ECMAScript (section 12.2 and 12.3 of
      ECMA-262), including the Unicode space separators. */
  predicate IsJsSpace(c: char)
  {
    var n := c as int;
    n == 0x09 || n == 0x0A || n == 0x0B || n == 0x0C || n == 0x0D || n == 0x20 || n == 0xA0
    || n == 0x1680 || (0x2000 <= n <= 0x200A) || n == 0x2028 || n == 0x2029 || n == 0x202F
    || n == 0x205F || n == 0x3000 || n == 0xFEFF
  }

  predicate AllSpace(s: string)
  {
    forall k :: 0 <= k < |s| ==> IsJsSpace(s[k])
  }

  /** Removing the leading white space. */
  function TrimStart(s: string): (r: string)
    ensures |r| <= |s| && r == s[|s| - |r|..]
    ensures AllSpace(s[..|s| - |r|])
    ensures r == [] || !IsJsSpace(r[0])
  {
    if s != [] && IsJsSpace(s[0]) then
      var r := TrimStart(s[1..]);
      DropLeadingSpace(s, r);
      r
    else s
  }

  /** A white-space character in front keeps r a suffix after white space. */
  lemma DropLeadingSpace(s: string, r: string)
    requires s != [] && IsJsSpace(s[0])
    requires |r| <= |s| - 1 && r == s[1..][|s| - 1 - |r|..] && AllSpace(s[1..][..|s| - 1 - |r|])
    ensures r == s[|s| - |r|..] && AllSpace(s[..|s| - |r|])
  {
    var lead, rest := s[..|s| - |r|], s[1..][..|s| - 1 - |r|];
    forall k | 0 <= k < |lead|
      ensures IsJsSpace(lead[k])
    {
      if k > 0 {
        assert lead[k] == rest[k - 1];
      }
    }
  }

  /** Removing the trailing white space. */
  function TrimEnd(s: string): (r: string)
    ensures |r| <= |s| && r == s[..|r|]
    ensures AllSpace(s[|r|..])
    ensures r == [] || !IsJsSpace(r[|r| - 1])
  {
    if s != [] && IsJsSpace(s[|s| - 1]) then
      var r := TrimEnd(s[..|s| - 1]);
      DropTrailingSpace(s, r);
      r
    else s
  }

  /** A white-space character at the end keeps r a prefix before white space. */
  lemma DropTrailingSpace(s: string, r: string)
    requires s != [] && IsJsSpace(s[|s| - 1])
    requires |r| <= |s| - 1 && r == s[..|s| - 1][..|r|] && AllSpace(s[..|s| - 1][|r|..])
    ensures r == s[..|r|] && AllSpace(s[|r|..])
  {
    var trail, rest := s[|r|..], s[..|s| - 1][|r|..];
    forall k | 0 <= k < |trail|
      ensures IsJsSpace(trail[k])
    {
      if k < |rest| {
        assert trail[k] == rest[k];
      }
    }
  }

  /** r is the part of s at offset i with only white space around it. */
  predicate TrimmedAt(s: string, r: string, i: nat)
  {
    i + |r| <= |s| && s[i..i + |r|] == r && AllSpace(s[..i]) && AllSpace(s[i + |r|..])
  }

  /** `s.trim()`: the part of s between its leading and its trailing white
      space, which neither starts nor ends with white space. */
  function Trim(s: string): (r: string)
    ensures exists i: nat :: TrimmedAt(s, r, i)
    ensures r == [] || (!IsJsSpace(r[0]) && !IsJsSpace(r[|r| - 1]))
  {
    TrimmedMiddle(s, TrimStart(s), TrimEnd(TrimStart(s)));
    TrimEnd(TrimStart(s))
  }

  /** Cutting white space off the start of s, giving t, and then off the end
      of t, giving r, leaves r in place in the middle of s. */
  lemma TrimmedMiddle(s: string, t: string, r: string)
    requires |t| <= |s| && t == s[|s| - |t|..] && AllSpace(s[..|s| - |t|])
    requires |r| <= |t| && r == t[..|r|] && AllSpace(t[|r|..])
    ensures TrimmedAt(s, r, |s| - |t|)
  {
    var i := |s| - |t|;
    assert s[i..i + |r|] == t[..|r|];
    assert s[i + |r|..] == t[|r|..];
  }

  /** `s.replaceAll('\n', ' ')`. */
  function ReplaceNewlines(s: string): string
  {
    seq(|s|, k requires 0 <= k < |s| => if s[k] == '\n' then ' ' else s[k])
  }

  /** The question as sent on: trimmed, then every newline turned into a space. */
  function Sanitize(q: string): string
  {
    ReplaceNewlines(Trim(q))
  }

  /** The sanitised question holds no newline; it is as long as the trimmed
      question and agrees with it everywhere except where that had a newline. */
  lemma SanitizeShape(q: string)
    ensures var r := Sanitize(q);
      && '\n' !in r
      && |r| == |Trim(q)|
      && forall k :: 0 <= k < |r| ==> r[k] == (if Trim(q)[k] == '\n' then ' ' else Trim(q)[k])
  {
    var r := Sanitize(q);
    forall k | 0 <= k < |r|
      ensures r[k] != '\n'
    {
    }
  }

  /** A string that neither starts nor ends with white space is its own trim. */
  lemma TrimUnchanged(s: string)
    requires s == [] || (!IsJsSpace(s[0]) && !IsJsSpace(s[|s| - 1]))
    ensures Trim(s) == s
  {
    assert TrimStart(s) == s;
    assert TrimEnd(s) == s;
  }

  /** A text without newlines is left as it is. */
  lemma NoNewlineUnchanged(s: string)
    requires '\n' !in s
    ensures ReplaceNewlines(s) == s
  {
    forall k | 0 <= k < |s|
      ensures ReplaceNewlines(s)[k] == s[k]
    {
      assert s[k] in s;
    }
  }

  /** Sanitising twice is sanitising once. */
  lemma SanitizeIdempotent(q: string)
    ensures Sanitize(Sanitize(q)) == Sanitize(q)
  {
    ReplacedTrimmedFixed(Trim(q));
  }

  /** A string already trimmed keeps its ends when newlines are replaced, and
      then loses nothing more to sanitising. */
  lemma ReplacedTrimmedFixed(t: string)
    requires t == [] || (!IsJsSpace(t[0]) && !IsJsSpace(t[|t| - 1]))
    ensures Sanitize(ReplaceNewlines(t)) == ReplaceNewlines(t)
  {
    var r := ReplaceNewlines(t);
    forall k | 0 <= k < |r|
      ensures r[k] != '\n'
    {
    }
    if r != [] {
      assert r[0] == t[0] && r[|r| - 1] == t[|t| - 1];
    }
    TrimUnchanged(r);
    NoNewlineUnchanged(r);
  }

  // ---------------------------------------------------------------------------
  // The history window

  /** Whether a message is part of the history: all but source annotations. */
  predicate IsTurn(m: Message)
  {
    m.role != Source
  }

  /** The turn of a kept message: human when the user wrote it, AI otherwise. */
  function TurnOf(m: Message): Turn
  {
    if m.role == User then Human(m.content) else AI(m.content)
  }

  /** The turns of the kept messages, one each, in order. */
  function TurnsOf(kept: seq<Message>): seq<Turn>
  {
    seq(|kept|, k requires 0 <= k < |kept| => TurnOf(kept[k]))
  }

  /** `history`: the messages other than source annotations, in order, each
      a human turn when the user wrote it and an AI turn otherwise. */
  function Turns(ms: seq<Message>): seq<Turn>
  {
    TurnsOf(Filter(ms, IsTurn))
  }

  /** The turns of a conversation are the turns of its parts, in order. */
  lemma TurnsAppend(a: seq<Message>, b: seq<Message>)
    ensures Turns(a + b) == Turns(a) + Turns(b)
  {
    FilterAppend(a, b, IsTurn);
    TurnsOfAppend(Filter(a, IsTurn), Filter(b, IsTurn));
  }

  /** Mapping messages to turns distributes over concatenation. */
  lemma TurnsOfAppend(x: seq<Message>, y: seq<Message>)
    ensures TurnsOf(x + y) == TurnsOf(x) + TurnsOf(y)
  {
    var l, r := TurnsOf(x + y), TurnsOf(x) + TurnsOf(y);
    forall k | 0 <= k < |l|
      ensures l[k] == r[k]
    {
      if k >= |x| {
        assert (x + y)[k] == y[k - |x|];
      }
    }
  }

  /** One message gives no turn if it is a source annotation, a human turn if
      the user wrote it, and an AI turn otherwise. */
  lemma TurnsOfOne(m: Message)
    ensures Turns([m]) == match m.role
      case Source => []
      case User => [Human(m.content)]
      case Assistant => [AI(m.content)]
  {
    assert Filter([m], IsTurn) == Filter([], IsTurn) + (if IsTurn(m) then [m] else []);
  }

  /** Where `Array.prototype.splice` and `slice` start: a negative position
      counts from the end, and positions are clamped to the array. */
  function RelativeIndex(p: int, len: nat): (k: nat)
    ensures k <= len
  {
    if p < 0 then (if len + p < 0 then 0 else len + p) else Min(p, len)
  }

  /** `a.splice(start, deleteCount)` applied to a: what remains. */
  function Splice<T>(a: seq<T>, start: int, deleteCount: int): seq<T>
  {
    var from := RelativeIndex(start, |a|);
    var count := if deleteCount < 0 then 0 else Min(deleteCount, |a| - from);
    a[..from] + a[from + count..]
  }

  /** `a.slice(start, end)`. */
  function Slice<T>(a: seq<T>, start: int, end: int): seq<T>
  {
    var from := RelativeIndex(start, |a|);
    var to := RelativeIndex(end, |a|);
    if to <= from then [] else a[from..to]
  }

  /** Windowing as the handler does it: remove the last entry, then, when more
      than 12 remain, keep `slice(length - 12, length - 1)`. */
  function Window(h: seq<Turn>): seq<Turn>
  {
    var dropped := Splice(h, |h| - 1, 1);
    if |dropped| > 12 then Slice(dropped, |dropped| - 12, |dropped| - 1) else dropped
  }

  /** With n turns: none when n = 0, the first n - 1 when n <= 13, and otherwise
      the 11 turns at positions n - 13 .. n - 3, so the two newest are never
      in it and it never holds more than 12. */
  lemma WindowShape(h: seq<Turn>)
    ensures var n := |h|; var w := Window(h);
      && |w| <= 12
      && (n == 0 ==> w == [])
      && (0 < n <= 13 ==> w == h[..n - 1])
      && (n > 13 ==> |w| == 11 && w == h[n - 13..n - 2])
  {
    var n := |h|;
    if n > 0 {
      assert Splice(h, n - 1, 1) == h[..n - 1] + h[n..];
      assert h[..n - 1] + h[n..] == h[..n - 1];
    }
  }

  // ---------------------------------------------------------------------------
  // The handler

  /** The standalone question: the sanitised one when the window is empty;
      otherwise the single value the condensing chain returns, or the error. */
  function Condensation(q: string, window: seq<Turn>, req: QueryRequest, svc: QueryServices)
    : (seq<Call>, Result<string, string>)
  {
    if window == [] then ([], Success(q))
    else
      var calls := [Condense(q, window, req.settings, req.key)];
      match svc.condense(q, window, req.settings, req.key)
      case Failure(e) => (calls, Failure(e))
      case Success(result) =>
        if |result| == 1 then (calls, Success(result[0].1)) else (calls, Failure(MultipleValuesError))
  }

  /** Whether the best match grounds the answer in documents. */
  predicate Grounded(matches: seq<Match>)
  {
    |matches| > 0 && matches[0].score > GroundingThreshold
  }

  /** Search, routing and answering for the standalone question q. */
  function Answering(q: string, window: seq<Turn>, req: QueryRequest, svc: QueryServices)
    : (seq<Call>, QueryResponse)
  {
    var searched := [Search(q, req.namespace, req.key)];
    match svc.search(q, req.namespace, req.key)
    case Failure(e) => (searched, Failed(e))
    case Success(matches) =>
      if Grounded(matches) then
        var retrieved := searched + [Retrieve(q, req.namespace, req.key)];
        match svc.retrieve(q, req.namespace, req.key)
        case Failure(e) => (retrieved, Failed(e))
        case Success(docs) =>
          var answered := retrieved + [AnswerFromDocs(q, docs, req.settings, req.key)];
          match svc.answerFromDocs(q, docs, req.settings, req.key)
          case Failure(e) => (answered, Failed(e))
          case Success(text) => (answered, Answer(text))
      else
        var conversed := searched + [Converse(q, window, req.settings, req.key)];
        match svc.converse(q, window, req.settings, req.key)
        case Failure(e) => (conversed, Failed(e))
        case Success(text) => (conversed, Answer(text))
  }

  /** Reference semantics of the handler: the calls made, in order, and the
      response. */
  function QuerySpec(req: QueryRequest, svc: QueryServices): (seq<Call>, QueryResponse)
  {
    if IsFalsy(req.question) then ([], Rejected(NoQuestionMessage))
    else if svc.initIndex.Some? then ([InitIndex], Unhandled(svc.initIndex.value))
    else
      var connected := [InitIndex, OpenStore(req.namespace, req.key)];
      if svc.openStore.Some? then (connected, Unhandled(svc.openStore.value))
      else
        var (calls, resp) := Pipeline(Sanitize(req.question.value), Window(Turns(req.messages)), req, svc);
        (connected + calls, resp)
  }

  /** The `try` block for the sanitised question q and the window:
      condensation, then search, routing and answering. */
  function Pipeline(q: string, window: seq<Turn>, req: QueryRequest, svc: QueryServices): (seq<Call>, QueryResponse)
  {
    var (condensed, standalone) := Condensation(q, window, req, svc);
    match standalone
    case Failure(e) => (condensed, Failed(e))
    case Success(nq) =>
      var (answered, resp) := Answering(nq, window, req, svc);
      (condensed + answered, resp)
  }

  /** `handler(req, res)`. */
  method Handle(req: QueryRequest, svc: QueryServices) returns (calls: seq<Call>, resp: QueryResponse)
    ensures (calls, resp) == QuerySpec(req, svc)
  {
    if IsFalsy(req.question) {
      return [], Rejected(NoQuestionMessage);
    }
    var sanitizedQuestion := Sanitize(req.question.value);
    calls := [InitIndex];
    if svc.initIndex.Some? {
      return calls, Unhandled(svc.initIndex.value);
    }
    calls := [InitIndex, OpenStore(req.namespace, req.key)];
    if svc.openStore.Some? {
      return calls, Unhandled(svc.openStore.value);
    }
    // try
    var history := Turns(req.messages);
    history := Splice(history, |history| - 1, 1);
    var length := |history|;
    if length > 12 {
      history := Slice(history, length - 12, length - 1);
    }
    assert history == Window(Turns(req.messages));
    var condensed, standalone := CondenseQuestion(sanitizedQuestion, history, req, svc);
    if standalone.Failure? {
      return calls + condensed, Failed(standalone.error);
    }
    var answered;
    answered, resp := Route(standalone.value, history, req, svc);
    calls := calls + (condensed + answered);
  }

  /** The condensing step of the handler's `try` block: with a history, ask
      the chain for a standalone question and insist on a single value. */
  method CondenseQuestion(sanitizedQuestion: string, history: seq<Turn>, req: QueryRequest, svc: QueryServices)
    returns (calls: seq<Call>, standalone: Result<string, string>)
    ensures (calls, standalone) == Condensation(sanitizedQuestion, history, req, svc)
  {
    calls := [];
    var newQuestion := sanitizedQuestion;
    if |history| > 0 {
      calls := [Condense(sanitizedQuestion, history, req.settings, req.key)];
      var result := svc.condense(sanitizedQuestion, history, req.settings, req.key);
      if result.Failure? {
        return calls, Failure(result.error);
      }
      if |result.value| == 1 {
        newQuestion := result.value[0].1;
      } else {
        return calls, Failure(MultipleValuesError);
      }
    }
    standalone := Success(newQuestion);
  }

  /** Search, routing and answering, as the handler's `try` block does them
      once the standalone question is known. */
  method Route(newQuestion: string, history: seq<Turn>, req: QueryRequest, svc: QueryServices)
    returns (calls: seq<Call>, resp: QueryResponse)
    ensures (calls, resp) == Answering(newQuestion, history, req, svc)
  {
    calls := [Search(newQuestion, req.namespace, req.key)];
    var vectorScore := svc.search(newQuestion, req.namespace, req.key);
    if vectorScore.Failure? {
      return calls, Failed(vectorScore.error);
    }
    if |vectorScore.value| > 0 && vectorScore.value[0].score > GroundingThreshold {
      calls := calls + [Retrieve(newQuestion, req.namespace, req.key)];
      var docs := svc.retrieve(newQuestion, req.namespace, req.key);
      if docs.Failure? {
        return calls, Failed(docs.error);
      }
      calls := calls + [AnswerFromDocs(newQuestion, docs.value, req.settings, req.key)];
      var response := svc.answerFromDocs(newQuestion, docs.value, req.settings, req.key);
      if response.Failure? {
        return calls, Failed(response.error);
      }
      resp := Answer(response.value);
    } else {
      calls := calls + [Converse(newQuestion, history, req.settings, req.key)];
      var response := svc.converse(newQuestion, history, req.settings, req.key);
      if response.Failure? {
        return calls, Failed(response.error);
      }
      resp := Answer(response.value);
    }
  }

  // ---------------------------------------------------------------------------
  // Properties of the handler

  /** A missing or empty question is answered 400 before the index, the vector
      store or any model is touched. */
  lemma NoQuestionRejected(req: QueryRequest, svc: QueryServices)
    requires IsFalsy(req.question)
    ensures QuerySpec(req, svc) == ([], Rejected(NoQuestionMessage))
  {
  }

  /** The prompt and the model named in the request change nothing. */
  lemma PromptAndModelIgnored(req: QueryRequest, svc: QueryServices, prompt: Option<string>, model: string)
    ensures QuerySpec(req.(prompt := prompt, model := model), svc) == QuerySpec(req, svc)
  {
    if !IsFalsy(req.question) {
      PipelineIgnoresPromptAndModel(Sanitize(req.question.value), Window(Turns(req.messages)), req, svc, prompt, model);
    }
  }

  /** The pipeline reads neither the prompt nor the model name. */
  lemma PipelineIgnoresPromptAndModel(q: string, window: seq<Turn>, req: QueryRequest, svc: QueryServices,
                                      prompt: Option<string>, model: string)
    ensures Pipeline(q, window, req.(prompt := prompt, model := model), svc) == Pipeline(q, window, req, svc)
  {
    var other := req.(prompt := prompt, model := model);
    assert Condensation(q, window, other, svc) == Condensation(q, window, req, svc);
    var standalone := Condensation(q, window, req, svc).1;
    if standalone.Success? {
      assert Answering(standalone.value, window, other, svc) == Answering(standalone.value, window, req, svc);
    }
  }

  /** The calls of the answering step start with the search and include no
      condensation. */
  lemma AnsweringCalls(q: string, window: seq<Turn>, req: QueryRequest, svc: QueryServices)
    ensures var calls := Answering(q, window, req, svc).0;
      && |calls| >= 1
      && calls[0] == Search(q, req.namespace, req.key)
      && forall k :: 0 <= k < |calls| ==> !calls[k].Condense?
  {
  }

  /** Once the index and the store are open, the calls are those two and then
      the pipeline's. */
  lemma QuerySpecConnected(req: QueryRequest, svc: QueryServices)
    requires !IsFalsy(req.question) && svc.initIndex.None? && svc.openStore.None?
    ensures var p := Pipeline(Sanitize(req.question.value), Window(Turns(req.messages)), req, svc);
      QuerySpec(req, svc) == ([InitIndex, OpenStore(req.namespace, req.key)] + p.0, p.1)
  {
  }

  /** With an empty window no condensation call is made and the sanitised
      question is searched for as it is. */
  lemma EmptyWindowSkipsCondensation(req: QueryRequest, svc: QueryServices)
    requires !IsFalsy(req.question) && svc.initIndex.None? && svc.openStore.None?
    requires Window(Turns(req.messages)) == []
    ensures var (calls, _) := QuerySpec(req, svc);
      && |calls| >= 3
      && calls[2] == Search(Sanitize(req.question.value), req.namespace, req.key)
      && forall k :: 0 <= k < |calls| ==> !calls[k].Condense?
  {
    var q := Sanitize(req.question.value);
    QuerySpecConnected(req, svc);
    PipelineWithoutHistory(q, req, svc);
  }

  /** The pipeline with an empty window: the calls of the answering step alone. */
  lemma PipelineWithoutHistory(q: string, req: QueryRequest, svc: QueryServices)
    ensures var calls := Pipeline(q, [], req, svc).0;
      && |calls| >= 1
      && calls[0] == Search(q, req.namespace, req.key)
      && forall k :: 0 <= k < |calls| ==> !calls[k].Condense?
  {
    AnsweringCalls(q, [], req, svc);
    assert Pipeline(q, [], req, svc).0 == [] + Answering(q, [], req, svc).0;
  }

  /** The calls hold exactly one condensation call, c, at position `at`, and
      the chain's `result` decides what follows it: a count of values other
      than one ends the request there with the 500, a single value is the
      question searched for next. */
  predicate CondensedAt(calls: seq<Call>, resp: QueryResponse, at: nat, c: Call,
                        result: Result<seq<(string, string)>, string>, namespace: string, key: string)
  {
    && at < |calls|
    && calls[at] == c
    && (forall k :: 0 <= k < |calls| && k != at ==> !calls[k].Condense?)
    && (result.Success? && |result.value| != 1 ==> |calls| == at + 1 && resp == Failed(MultipleValuesError))
    && (result.Success? && |result.value| == 1 ==>
          at + 1 < |calls| && calls[at + 1] == Search(result.value[0].1, namespace, key))
  }

  /** The index and the store opened before the pipeline shift its
      condensation call to position 2. */
  lemma {:induction false} CondensedAfterConnecting(r: (seq<Call>, QueryResponse), p: (seq<Call>, QueryResponse), c: Call,
                                  result: Result<seq<(string, string)>, string>, namespace: string, key: string)
    requires r == ([InitIndex, OpenStore(namespace, key)] + p.0, p.1)
    requires CondensedAt(p.0, p.1, 0, c, result, namespace, key)
    ensures CondensedAt(r.0, r.1, 2, c, result, namespace, key)
  {
    forall k | 0 <= k < |r.0| && k != 2
      ensures !r.0[k].Condense?
    {
      if k >= 2 {
        assert r.0[k] == p.0[k - 2];
      }
    }
  }

  /** With a non-empty window the condensing chain is called exactly once, on
      the sanitised question and the window, right after the index and the
      store are opened. A result with exactly one value supplies the question
      searched for; any other count fails the request with a 500 before any
      search. */
  lemma NonEmptyWindowCondensesOnce(req: QueryRequest, svc: QueryServices)
    requires !IsFalsy(req.question) && svc.initIndex.None? && svc.openStore.None?
    requires Window(Turns(req.messages)) != []
    ensures var q := Sanitize(req.question.value);
      var w := Window(Turns(req.messages));
      CondensedAt(QuerySpec(req, svc).0, QuerySpec(req, svc).1, 2, Condense(q, w, req.settings, req.key),
                  svc.condense(q, w, req.settings, req.key), req.namespace, req.key)
  {
    var q := Sanitize(req.question.value);
    var w := Window(Turns(req.messages));
    QuerySpecConnected(req, svc);
    PipelineCondenses(q, w, req, svc);
    CondensedAfterConnecting(QuerySpec(req, svc), Pipeline(q, w, req, svc), Condense(q, w, req.settings, req.key),
                             svc.condense(q, w, req.settings, req.key), req.namespace, req.key);
  }

  /** The pipeline with a non-empty window: one condensation call first, and
      then either the failure or the search for the condensed question. */
  lemma PipelineCondenses(q: string, w: seq<Turn>, req: QueryRequest, svc: QueryServices)
    requires w != []
    ensures var p := Pipeline(q, w, req, svc);
      CondensedAt(p.0, p.1, 0, Condense(q, w, req.settings, req.key),
                  svc.condense(q, w, req.settings, req.key), req.namespace, req.key)
  {
    var condensed := [Condense(q, w, req.settings, req.key)];
    var standalone := Condensation(q, w, req, svc).1;
    assert Condensation(q, w, req, svc).0 == condensed;
    if standalone.Success? {
      var answered := Answering(standalone.value, w, req, svc).0;
      AnsweringCalls(standalone.value, w, req, svc);
      assert Pipeline(q, w, req, svc).0 == condensed + answered;
    }
  }

  /** Routing: after a successful search the answer is grounded in retrieved
      documents exactly when there is a match scoring strictly above 0.8;
      otherwise it is an open conversation seeded with the window. The
      grounded answer is given no history. */
  lemma RouteByTopScore(q: string, window: seq<Turn>, req: QueryRequest, svc: QueryServices)
    requires svc.search(q, req.namespace, req.key).Success?
    ensures var (calls, _) := Answering(q, window, req, svc);
      var matches := svc.search(q, req.namespace, req.key).value;
      && |calls| >= 2
      && (calls[1] == Retrieve(q, req.namespace, req.key) <==> |matches| > 0 && matches[0].score > 0.8)
      && (calls[1] == Converse(q, window, req.settings, req.key) <==> !(|matches| > 0 && matches[0].score > 0.8))
      && (forall k :: 0 <= k < |calls| ==> !calls[k].Converse? || calls[k].history == window)
  {
  }

  /** A top score of exactly 0.8 is not enough to ground the answer. */
  lemma ThresholdIsStrict(q: string, window: seq<Turn>, req: QueryRequest, svc: QueryServices, text: string)
    requires svc.search(q, req.namespace, req.key) == Success([Match(text, 0.8)])
    ensures Answering(q, window, req, svc).0[1].Converse?
  {
  }

  /** A successful answer carries only the text of the chain that produced it:
      the QA chain's on the grounded path, the conversation's on the open one. */
  lemma AnswerIsChainText(q: string, window: seq<Turn>, req: QueryRequest, svc: QueryServices)
    requires Answering(q, window, req, svc).1.Answer?
    ensures var (calls, resp) := Answering(q, window, req, svc);
      var last := calls[|calls| - 1];
      && (last.AnswerFromDocs? || last.Converse?)
      && (last.AnswerFromDocs? ==> Success(resp.data) == svc.answerFromDocs(q, last.docs, req.settings, req.key))
      && (last.Converse? ==> Success(resp.data) == svc.converse(q, window, req.settings, req.key))
  {
  }
}
