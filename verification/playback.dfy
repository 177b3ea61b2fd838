/** Sending a question from the chat page (`handleSend` in `pages/index.tsx`).

    The page prepares the message list (cutting the last exchange when a
    message is resent), posts the question to the query endpoint, appends an
    empty assistant message and then reveals the answer one character per
    timer tick. A tick either completes playback (appending the source
    excerpts, if any, and saving the conversation list), or stops it because
    the user asked to, or reveals the next character. Completion is checked
    first.

    The timer is modelled as a sequence of ticks, each carrying the value the
    stop flag has when that tick runs. */
module Playback {
  import opened Common
  import opened ChatTypes
  import Home
  import QueryRouter

  /** Messages removed on resend when the last one is a source annotation:
      the question, its answer and the annotation. */
  const SourceExchangeLength: int := 3

  /** What reading `.role` of the missing last message of an empty list throws. */
  const NoLastMessageError: string := "TypeError: Cannot read properties of undefined (reading 'role')"

  // ---------------------------------------------------------------------------
  // Preparing the message list

  /** How many messages a resend removes. */
  function PopCount(ms: seq<Message>, deleteCount: int): int
    requires ms != []
  {
    if ms[|ms| - 1].role == Source then SourceExchangeLength else deleteCount
  }

  /** The message list posted with the question: on resend (`deleteCount` not
      0) the last `PopCount` messages are removed, as many as there are; the
      question is then appended. Resending from an empty list throws. */
  function PreparedMessages(ms: seq<Message>, message: Message, deleteCount: int): Result<seq<Message>, string>
  {
    if deleteCount == 0 then Success(ms + [message])
    else if ms == [] then Failure(NoLastMessageError)
    else
      var d := PopCount(ms, deleteCount);
      var kept := if d <= 0 then |ms| else if d >= |ms| then 0 else |ms| - d;
      Success(ms[..kept] + [message])
  }

  /** The pop loop of a resend, then the append. */
  method PrepareMessages(ms: seq<Message>, message: Message, deleteCount: int) returns (r: Result<seq<Message>, string>)
    ensures r == PreparedMessages(ms, message, deleteCount)
  {
    if deleteCount != 0 {
      var updatedMessages := ms;
      if updatedMessages == [] {
        return Failure(NoLastMessageError);
      }
      var count := deleteCount;
      if updatedMessages[|updatedMessages| - 1].role == Source {
        count := SourceExchangeLength;
      }
      var i := 0;
      while i < count
        invariant 0 <= i && (i == 0 || i <= count)
        invariant updatedMessages == ms[..if i >= |ms| then 0 else |ms| - i]
      {
        if updatedMessages != [] {
          updatedMessages := updatedMessages[..|updatedMessages| - 1];
        }
        i := i + 1;
      }
      if count <= 0 {
        assert i == 0 && updatedMessages == ms[..|ms|];
      } else {
        assert i == count;
      }
      r := Success(updatedMessages + [message]);
    } else {
      r := Success(ms + [message]);
    }
  }

  /** Whatever is removed, the prepared list is a prefix of the old one
      followed by the question. Without resend nothing is removed; a resend
      after a source annotation removes the whole last exchange of three, or
      everything when fewer are left; other resends remove `deleteCount`
      messages, or none when it is negative. */
  lemma PreparedShape(ms: seq<Message>, message: Message, deleteCount: int)
    ensures var r := PreparedMessages(ms, message, deleteCount);
      && (r.Failure? <==> deleteCount != 0 && ms == [])
      && (r.Success? ==> |r.value| >= 1 && r.value[|r.value| - 1] == message
                         && r.value[..|r.value| - 1] <= ms)
      && (deleteCount == 0 ==> r == Success(ms + [message]))
      && (deleteCount != 0 && |ms| >= 3 && ms[|ms| - 1].role == Source ==> r == Success(ms[..|ms| - 3] + [message]))
      && (deleteCount != 0 && 1 <= |ms| < 3 && ms[|ms| - 1].role == Source ==> r == Success([message]))
      && (deleteCount > 0 && ms != [] && ms[|ms| - 1].role != Source ==>
            r == Success(ms[..if deleteCount >= |ms| then 0 else |ms| - deleteCount] + [message]))
      && (deleteCount < 0 && ms != [] && ms[|ms| - 1].role != Source ==> r == Success(ms + [message]))
  {
    var r := PreparedMessages(ms, message, deleteCount);
    if r.Success? {
      assert r.value[..|r.value| - 1] <= ms;
    }
    assert ms[..|ms|] == ms && ms[..0] + [message] == [message];
  }

  // ---------------------------------------------------------------------------
  // The source annotation

  /** One excerpt of the annotation: `Source ${n}:\n\n` + text + `\n\n`. */
  function SourceEntry(n: nat, pageContent: string): string
  {
    "Source " + NatToString(n) + ":\n\n" + pageContent + "\n\n"
  }

  /** The annotation for the source excerpts, numbered from 1 in list order. */
  function SourceText(sources: seq<string>): string
  {
    if sources == [] then "" else SourceText(sources[..|sources| - 1]) + SourceEntry(|sources|, sources[|sources| - 1])
  }

  /** The annotation of a non-empty list of excerpts begins with the
      `Source 1:` entry for the first excerpt. */
  lemma {:induction false} SourceTextStartsWithFirst(sources: seq<string>)
    requires sources != []
    ensures SourceEntry(1, sources[0]) <= SourceText(sources)
    ensures "Source 1:\n\n" <= SourceText(sources)
  {
    if |sources| == 1 {
      assert SourceText(sources) == "" + SourceEntry(1, sources[0]);
    } else {
      var prefix := sources[..|sources| - 1];
      SourceTextStartsWithFirst(prefix);
    }
    assert NatToString(1) == "1";
  }

  /** The first `|a|` excerpts' entries are not changed by later excerpts. */
  lemma {:induction false} SourceTextAppend(a: seq<string>, b: seq<string>)
    ensures SourceText(a) <= SourceText(a + b)
    decreases |b|
  {
    if b == [] {
      assert a + b == a;
    } else {
      var ab := a + b;
      assert ab[..|ab| - 1] == a + b[..|b| - 1];
      SourceTextAppend(a, b[..|b| - 1]);
    }
  }

  // ---------------------------------------------------------------------------
  // Playback

  datatype Ending = Completed | Cancelled

  /** How far playback of an answer of n characters has got after the given
      ticks: the characters revealed, and how it ended, if it has. Once it has
      ended the timer is cleared and later ticks do nothing. */
  datatype PlayState = PlayState(revealed: nat, ending: Option<Ending>)

  /** Reference semantics of the ticks: completion when everything is
      revealed, else a stop when the flag is set, else one more character. */
  function Ticks(n: nat, stops: seq<bool>): PlayState
  {
    if stops == [] then PlayState(0, None)
    else
      var s := Ticks(n, stops[..|stops| - 1]);
      if s.ending.Some? then s
      else if s.revealed == n then PlayState(n, Some(Completed))
      else if stops[|stops| - 1] then PlayState(s.revealed, Some(Cancelled))
      else PlayState(s.revealed + 1, None)
  }

  /** The outcome of the ticks in closed form. Playback is still running
      exactly when no tick has found the answer complete or the flag set; then
      one character has been revealed per tick. It completes exactly when
      there are more ticks than characters and the flag was clear for every
      character, so a stop requested on the completing tick comes too late,
      and an empty answer completes on the first tick. It is cancelled at the
      first set flag before the end, with the characters before it revealed. */
  lemma {:induction false} TicksOutcome(n: nat, stops: seq<bool>)
    ensures var s := Ticks(n, stops);
      && s.revealed <= n && s.revealed <= |stops|
      && (s.ending.None? <==> |stops| <= n && forall t :: 0 <= t < |stops| ==> !stops[t])
      && (s.ending.None? ==> s.revealed == |stops|)
      && (s.ending == Some(Completed) <==> n < |stops| && forall t :: 0 <= t < n ==> !stops[t])
      && (s.ending == Some(Completed) ==> s.revealed == n)
      && (s.ending == Some(Cancelled) ==>
            s.revealed < n && s.revealed < |stops| && stops[s.revealed] && forall t :: 0 <= t < s.revealed ==> !stops[t])
  {
    if stops != [] {
      var prefix := stops[..|stops| - 1];
      TicksOutcome(n, prefix);
      assert forall t :: 0 <= t < |prefix| ==> prefix[t] == stops[t];
    }
  }

  /** Ticks after the end change nothing. */
  lemma {:induction false} TicksEnded(n: nat, stops: seq<bool>, t: nat)
    requires t <= |stops| && Ticks(n, stops[..t]).ending.Some?
    ensures Ticks(n, stops) == Ticks(n, stops[..t])
    decreases |stops| - t
  {
    if t < |stops| {
      var prefix := stops[..|stops| - 1];
      assert prefix[..t] == stops[..t];
      TicksEnded(n, prefix, t);
    } else {
      assert stops[..t] == stops;
    }
  }

  /** The messages shown during and after playback: the list it started
      from, the answer revealed so far, and the source annotation when
      playback completed with excerpts. */
  function Shown(base: seq<Message>, allText: string, sources: seq<string>, s: PlayState): seq<Message>
    requires s.revealed <= |allText|
  {
    base + [Message(Assistant, allText[..s.revealed])]
    + (if s.ending == Some(Completed) && sources != [] then [Message(Source, SourceText(sources))] else [])
  }

  /** The loop that numbers the source excerpts into one annotation. */
  method AnnotateSources(sources: seq<string>) returns (saveContent: string)
    ensures saveContent == SourceText(sources)
  {
    saveContent := "";
    var j := 0;
    while j < |sources|
      invariant j <= |sources|
      invariant saveContent == SourceText(sources[..j])
    {
      assert sources[..j + 1][..j] == sources[..j];
      saveContent := saveContent + SourceEntry(j + 1, sources[j]);
      j := j + 1;
    }
    assert sources[..j] == sources;
  }

  /** The interval callback, run once per tick until it clears the timer.
      Yields the conversation as playback leaves it, how playback ended, and
      the conversation list saved when it ended. */
  method Play(conversation: Conversation, conversations: seq<Conversation>, allText: string,
              sources: seq<string>, stops: seq<bool>)
    returns (updated: Conversation, ending: Option<Ending>, saved: Option<seq<Conversation>>)
    ensures var s := Ticks(|allText|, stops);
      && s.revealed <= |allText|
      && ending == s.ending
      && updated == conversation.(messages := Shown(conversation.messages, allText, sources, s))
      && saved == if ending.Some? then Some(Home.ReplaceConversation(conversations, conversation.id, updated)) else None
  {
    updated := conversation.(messages := conversation.messages + [Message(Assistant, "")]);
    ending := None;
    saved := None;
    var i := 0;
    var t := 0;
    while t < |stops| && ending.None?
      invariant t <= |stops|
      invariant Ticks(|allText|, stops[..t]) == PlayState(i, ending)
      invariant i <= |allText|
      invariant updated == conversation.(messages := Shown(conversation.messages, allText, sources, PlayState(i, ending)))
      invariant saved == if ending.Some? then Some(Home.ReplaceConversation(conversations, conversation.id, updated)) else None
    {
      assert stops[..t + 1][..t] == stops[..t];
      if i == |allText| {
        if sources != [] {
          var saveContent := AnnotateSources(sources);
          updated := updated.(messages := updated.messages + [Message(Source, saveContent)]);
        }
        ending := Some(Completed);
        saved := Some(Home.ReplaceConversation(conversations, conversation.id, updated));
      } else if stops[t] {
        ending := Some(Cancelled);
        saved := Some(Home.ReplaceConversation(conversations, conversation.id, updated));
      } else {
        var ms := updated.messages;
        var last := ms[|ms| - 1];
        updated := updated.(messages := ms[..|ms| - 1] + [last.(content := last.content + [allText[i]])]);
        assert allText[..i + 1] == allText[..i] + [allText[i]];
        i := i + 1;
      }
      t := t + 1;
    }
    if ending.Some? {
      TicksEnded(|allText|, stops, t);
    } else {
      assert stops[..t] == stops;
    }
  }

  /** Playback never touches the messages it started from; the last message
      it reveals into is always a prefix of the answer, the whole answer once
      it completes; a stopped playback adds no annotation; and the list is
      saved exactly when playback ends, with the conversation in place. */
  lemma PlaybackKeepsHistory(base: seq<Message>, allText: string, sources: seq<string>, stops: seq<bool>)
    ensures var s := Ticks(|allText|, stops);
      s.revealed <= |allText| &&
      var shown := Shown(base, allText, sources, s);
      && shown[..|base|] == base
      && shown[|base|].role == Assistant && shown[|base|].content <= allText
      && (s.ending == Some(Completed) ==> shown[|base|].content == allText)
      && (s.ending != Some(Completed) ==> |shown| == |base| + 1)
      && (s.ending == Some(Completed) && sources != [] ==>
            |shown| == |base| + 2 && shown[|base| + 1].role == Source
            && "Source 1:\n\n" <= shown[|base| + 1].content)
  {
    var s := Ticks(|allText|, stops);
    TicksOutcome(|allText|, stops);
    if s.ending == Some(Completed) {
      assert allText[..s.revealed] == allText;
      if sources != [] {
        SourceTextStartsWithFirst(sources);
      }
    }
  }

  // ---------------------------------------------------------------------------
  // The whole send

  /** What the page holds that a send changes. */
  datatype Screen = Screen(
    selected: Option<Conversation>,
    conversations: seq<Conversation>,
    loading: bool,
    streaming: bool)

  /** The page's stored key, index namespace and sampling settings. */
  datatype Session = Session(apiKey: string, namespace: string, settings: QueryRouter.Sampling)

  /** The query endpoint's answer as the page reads it: not ok, ok without a
      body, or the parsed `data` and `source` fields (`source` empty when the
      field is missing or empty). */
  datatype Reply = NotOk | NoBody | Parsed(data: string, sources: seq<string>)

  /** The body posted to the query endpoint. */
  function ChatRequest(c: Conversation, message: Message, session: Session): QueryRouter.QueryRequest
  {
    QueryRouter.QueryRequest(Some(message.content), c.messages, session.apiKey, c.model, Some(c.prompt),
                             session.settings, session.namespace)
  }

  /** `handleSend(message, deleteCount)`: the body posted, if any, and the
      page afterwards, or the error it throws. */
  method Send(screen: Screen, session: Session, message: Message, deleteCount: int, reply: Reply, stops: seq<bool>)
    returns (posted: Option<QueryRouter.QueryRequest>, r: Result<Screen, string>)
    ensures screen.selected.None? ==> posted.None? && r == Success(screen)
    ensures screen.selected.Some? && PreparedMessages(screen.selected.value.messages, message, deleteCount).Failure? ==>
      posted.None? && r == Failure(PreparedMessages(screen.selected.value.messages, message, deleteCount).error)
    ensures screen.selected.Some? && PreparedMessages(screen.selected.value.messages, message, deleteCount).Success? ==>
      var ms := PreparedMessages(screen.selected.value.messages, message, deleteCount).value;
      var sent := screen.selected.value.(messages := ms);
      && posted == Some(ChatRequest(sent, message, session))
      && r.Success? && !r.value.loading
      && (!reply.Parsed? ==> r.value == Screen(Some(sent), screen.conversations, false, false))
    ensures screen.selected.Some? && PreparedMessages(screen.selected.value.messages, message, deleteCount).Success?
            && reply.Parsed? ==>
      var ms := PreparedMessages(screen.selected.value.messages, message, deleteCount).value;
      var sent := screen.selected.value.(messages := ms);
      var s := Ticks(|reply.data|, stops);
      && s.revealed <= |reply.data|
      && r.Success?
      && r.value.selected == Some(sent.(messages := Shown(ms, reply.data, reply.sources, s)))
      && r.value.streaming == s.ending.None?
      && r.value.conversations
         == if s.ending.Some? then Home.ReplaceConversation(screen.conversations, sent.id, r.value.selected.value)
            else screen.conversations
  {
    if screen.selected.None? {
      return None, Success(screen);
    }
    var c := screen.selected.value;
    var prepared := PrepareMessages(c.messages, message, deleteCount);
    if prepared.Failure? {
      return None, Failure(prepared.error);
    }
    var updatedConversation := c.(messages := prepared.value);
    posted := Some(ChatRequest(updatedConversation, message, session));
    match reply
    case NotOk =>
      r := Success(Screen(Some(updatedConversation), screen.conversations, false, false));
    case NoBody =>
      r := Success(Screen(Some(updatedConversation), screen.conversations, false, false));
    case Parsed(data, sources) =>
      var shown, ending, saved := Play(updatedConversation, screen.conversations, data, sources, stops);
      r := Success(Screen(Some(shown), if saved.Some? then saved.value else screen.conversations, false, ending.None?));
  }
}
