/** The chat page's list handlers (`pages/index.tsx`): folders, conversations
    and prompts rewritten by id with map and filter. Each handler is a
    function from the page's lists to the new lists; identifiers the page
    draws from `uuidv4()` are parameters. */
module Home {
  import opened Common
  import opened ChatTypes

  /** The lists the handlers rewrite, and the selected conversation. */
  datatype Workspace = Workspace(
    folders: seq<Folder>,
    conversations: seq<Conversation>,
    prompts: seq<Prompt>,
    selected: Option<Conversation>)

  /** Name given to the conversation selected after the list is cleared or emptied. */
  const NewConversationName: string := "New conversation"

  /** The empty conversation the page selects when none is left. */
  function BlankConversation(id: string, defaults: AppDefaults): Conversation
  {
    Conversation(id, NewConversationName, [], defaults.model, defaults.systemPrompt, None)
  }

  // ---------------------------------------------------------------------------
  // Replacing a conversation in the list (the end of playback)

  /** `conversations.map(c => c.id === id ? updated : c)`, and the single
      updated conversation when that gives an empty list. */
  function ReplaceConversation(cs: seq<Conversation>, id: string, updated: Conversation): seq<Conversation>
  {
    if cs == [] then [updated]
    else seq(|cs|, k requires 0 <= k < |cs| => if cs[k].id == id then updated else cs[k])
  }

  /** Exactly the entries whose id matches are replaced; the others and the
      length stay as they were. An empty list becomes the single updated
      conversation. */
  lemma ReplaceConversationEffect(cs: seq<Conversation>, id: string, updated: Conversation)
    ensures var r := ReplaceConversation(cs, id, updated);
      && (cs == [] ==> r == [updated])
      && (cs != [] ==> |r| == |cs|)
      && (forall k :: 0 <= k < |cs| && cs[k].id == id ==> r[k] == updated)
      && (forall k :: 0 <= k < |cs| && cs[k].id != id ==> r[k] == cs[k])
  {
  }

  /** Replacing is idempotent, and when no entry has the id a non-empty list
      is left as it is. */
  lemma ReplaceConversationStable(cs: seq<Conversation>, id: string, updated: Conversation)
    ensures ReplaceConversation(ReplaceConversation(cs, id, updated), id, updated) == ReplaceConversation(cs, id, updated)
    ensures cs != [] && (forall k :: 0 <= k < |cs| ==> cs[k].id != id) ==> ReplaceConversation(cs, id, updated) == cs
  {
  }

  // ---------------------------------------------------------------------------
  // Editing a message

  /** `messages.map((m, i) => i < messageIndex ? m : undefined)`. */
  function MarkBefore(ms: seq<Message>, messageIndex: int): seq<Option<Message>>
  {
    seq(|ms|, k requires 0 <= k < |ms| => if k < messageIndex then Some(ms[k]) else None)
  }

  /** `.filter(m => m)`: the defined entries, in order. */
  function Defined(os: seq<Option<Message>>): seq<Message>
  {
    if os == [] then []
    else Defined(os[..|os| - 1]) + (if os[|os| - 1].Some? then [os[|os| - 1].value] else [])
  }

  /** The messages `handleEditMessage` keeps. */
  function EditMessages(ms: seq<Message>, messageIndex: int): seq<Message>
  {
    Defined(MarkBefore(ms, messageIndex))
  }

  /** Editing keeps exactly the messages before the edited one, in order:
      none for an index at or below 0, all of them for an index past the end. */
  lemma {:induction false} EditKeepsPrefix(ms: seq<Message>, messageIndex: int)
    ensures EditMessages(ms, messageIndex) == ms[..if messageIndex < 0 then 0 else Min(messageIndex, |ms|)]
  {
    if ms != [] {
      var prefix := ms[..|ms| - 1];
      assert MarkBefore(ms, messageIndex)[..|ms| - 1] == MarkBefore(prefix, messageIndex);
      EditKeepsPrefix(prefix, messageIndex);
      if messageIndex >= |ms| {
        assert ms[..|ms|] == prefix + [ms[|ms| - 1]];
      }
    }
  }

  /** The selected conversation after an edit: the same conversation with its
      messages cut before the edited one. */
  function EditMessage(ws: Workspace, messageIndex: int): (r: Option<Conversation>)
    ensures r.Some? <==> ws.selected.Some?
    ensures r.Some? ==>
      var c := ws.selected.value;
      && r.value.(messages := c.messages) == c
      && r.value.messages == c.messages[..if messageIndex < 0 then 0 else Min(messageIndex, |c.messages|)]
  {
    match ws.selected
    case None => None
    case Some(c) =>
      EditKeepsPrefix(c.messages, messageIndex);
      Some(c.(messages := EditMessages(c.messages, messageIndex)))
  }

  // ---------------------------------------------------------------------------
  // Folders

  /** `handleCreateFolder`: a new folder at the end of the list. */
  function CreateFolder(ws: Workspace, id: string, name: string, kind: FolderType): (r: Workspace)
    ensures |r.folders| == |ws.folders| + 1 && r.folders[..|ws.folders|] == ws.folders
    ensures r.folders[|ws.folders|] == Folder(id, name, kind)
    ensures r.conversations == ws.conversations && r.prompts == ws.prompts && r.selected == ws.selected
  {
    ws.(folders := ws.folders + [Folder(id, name, kind)])
  }

  /** `handleUpdateFolder`: renames the folders with that id. */
  function RenameFolder(fs: seq<Folder>, folderId: string, name: string): seq<Folder>
  {
    seq(|fs|, k requires 0 <= k < |fs| => if fs[k].id == folderId then fs[k].(name := name) else fs[k])
  }

  /** Renaming changes only the names of the folders with that id. */
  lemma RenameFolderEffect(fs: seq<Folder>, folderId: string, name: string)
    ensures var r := RenameFolder(fs, folderId, name);
      && |r| == |fs|
      && (forall k :: 0 <= k < |fs| ==> r[k].id == fs[k].id && r[k].kind == fs[k].kind)
      && (forall k :: 0 <= k < |fs| ==> r[k].name == if fs[k].id == folderId then name else fs[k].name)
  {
  }

  /** Detaching conversations from a folder. */
  function DetachConversations(cs: seq<Conversation>, folderId: string): seq<Conversation>
  {
    seq(|cs|, k requires 0 <= k < |cs| => if cs[k].folderId == Some(folderId) then cs[k].(folderId := None) else cs[k])
  }

  /** Detaching prompts from a folder. */
  function DetachPrompts(ps: seq<Prompt>, folderId: string): seq<Prompt>
  {
    seq(|ps|, k requires 0 <= k < |ps| => if ps[k].folderId == Some(folderId) then ps[k].(folderId := None) else ps[k])
  }

  /** `handleDeleteFolder`. */
  function DeleteFolder(ws: Workspace, folderId: string): Workspace
  {
    ws.(folders := Filter(ws.folders, (f: Folder) => f.id != folderId),
        conversations := DetachConversations(ws.conversations, folderId),
        prompts := DetachPrompts(ws.prompts, folderId))
  }

  /** Deleting a folder removes only the folders with that id, keeps the
      others, and leaves no conversation or prompt in it. Exactly the
      conversations and prompts that were in it lose their folder; nothing
      else about any of them changes, and no entry is added or removed. */
  lemma DeleteFolderEffect(ws: Workspace, folderId: string)
    ensures var r := DeleteFolder(ws, folderId);
      && (forall k :: 0 <= k < |r.folders| ==> r.folders[k].id != folderId)
      && (forall f :: f in ws.folders && f.id != folderId ==> f in r.folders)
      && (forall f :: f in r.folders ==> f in ws.folders)
      && |r.conversations| == |ws.conversations| && |r.prompts| == |ws.prompts|
      && (forall k :: 0 <= k < |r.conversations| ==>
            && r.conversations[k].folderId ==
                 (if ws.conversations[k].folderId == Some(folderId) then None else ws.conversations[k].folderId)
            && r.conversations[k].(folderId := ws.conversations[k].folderId) == ws.conversations[k])
      && (forall k :: 0 <= k < |r.prompts| ==>
            && r.prompts[k].folderId ==
                 (if ws.prompts[k].folderId == Some(folderId) then None else ws.prompts[k].folderId)
            && r.prompts[k].(folderId := ws.prompts[k].folderId) == ws.prompts[k])
      && r.selected == ws.selected
  {
    var r := DeleteFolder(ws, folderId);
    forall f | f in ws.folders && f.id != folderId
      ensures f in r.folders
    {
      var k :| 0 <= k < |ws.folders| && ws.folders[k] == f;
    }
  }

  // ---------------------------------------------------------------------------
  // Conversations

  /** `handleDeleteConversation`: drops the conversations with that id and
      selects the last one left, or a blank one. */
  function DeleteConversation(ws: Workspace, c: Conversation, freshId: string, defaults: AppDefaults): Workspace
  {
    var rest := Filter(ws.conversations, (x: Conversation) => x.id != c.id);
    ws.(conversations := rest,
        selected := Some(if |rest| > 0 then rest[|rest| - 1] else BlankConversation(freshId, defaults)))
  }

  /** After deleting, no conversation with that id is left, every other one
      is, nothing is added, and the selection is the last one left, or a blank conversation
      when none is. */
  lemma DeleteConversationEffect(ws: Workspace, c: Conversation, freshId: string, defaults: AppDefaults)
    ensures var r := DeleteConversation(ws, c, freshId, defaults);
      && (forall k :: 0 <= k < |r.conversations| ==> r.conversations[k].id != c.id)
      && (forall x :: x in ws.conversations && x.id != c.id ==> x in r.conversations)
      && (forall x :: x in r.conversations ==> x in ws.conversations)
      && r.selected.Some?
      && (r.conversations != [] ==> r.selected.value == r.conversations[|r.conversations| - 1])
      && (r.conversations == [] ==>
            && r.selected.value.id == freshId && r.selected.value.name == NewConversationName
            && r.selected.value.messages == [] && r.selected.value.folderId == None)
      && r.folders == ws.folders && r.prompts == ws.prompts
  {
    var r := DeleteConversation(ws, c, freshId, defaults);
    forall x | x in ws.conversations && x.id != c.id
      ensures x in r.conversations
    {
      var k :| 0 <= k < |ws.conversations| && ws.conversations[k] == x;
    }
  }

  /** `handleClearConversations`: no conversations, a blank selection, and
      only the folders that do not hold conversations. */
  function ClearConversations(ws: Workspace, freshId: string, defaults: AppDefaults): Workspace
  {
    Workspace(Filter(ws.folders, (f: Folder) => f.kind != ChatFolder), [], ws.prompts,
              Some(BlankConversation(freshId, defaults)))
  }

  /** Clearing keeps exactly the prompt folders, and when there are no chat
      folders the folder list is unchanged; the selection becomes a new blank
      conversation outside any folder. */
  lemma ClearConversationsEffect(ws: Workspace, freshId: string, defaults: AppDefaults)
    ensures var r := ClearConversations(ws, freshId, defaults);
      && r.conversations == []
      && (forall k :: 0 <= k < |r.folders| ==> r.folders[k].kind == PromptFolder)
      && (forall f :: f in ws.folders && f.kind == PromptFolder ==> f in r.folders)
      && (forall f :: f in r.folders ==> f in ws.folders)
      && ((forall k :: 0 <= k < |ws.folders| ==> ws.folders[k].kind == PromptFolder) ==> r.folders == ws.folders)
      && r.prompts == ws.prompts
      && r.selected.Some? && r.selected.value.id == freshId && r.selected.value.name == NewConversationName
      && r.selected.value.messages == [] && r.selected.value.folderId == None
  {
    var r := ClearConversations(ws, freshId, defaults);
    forall f | f in ws.folders && f.kind == PromptFolder
      ensures f in r.folders
    {
      var k :| 0 <= k < |ws.folders| && ws.folders[k] == f;
    }
    if forall k :: 0 <= k < |ws.folders| ==> ws.folders[k].kind == PromptFolder {
      FilterKeepsAll(ws.folders, (f: Folder) => f.kind != ChatFolder);
    }
  }

  // ---------------------------------------------------------------------------
  // Prompts

  /** `handleCreatePrompt`: a blank prompt named after its position. */
  function CreatePrompt(ws: Workspace, freshId: string, defaults: AppDefaults): Workspace
  {
    var name := "Prompt " + NatToString(|ws.prompts| + 1);
    ws.(prompts := ws.prompts + [Prompt(freshId, name, "", "", defaults.model, None)])
  }

  /** A created prompt is appended blank, outside any folder; the existing
      prompts are untouched. Two prompts created one after the other get
      different names. */
  lemma CreatePromptEffect(ws: Workspace, id1: string, id2: string, defaults: AppDefaults)
    ensures var r := CreatePrompt(ws, id1, defaults);
      && |r.prompts| == |ws.prompts| + 1
      && r.prompts[..|ws.prompts|] == ws.prompts
      && r.prompts[|ws.prompts|].id == id1
      && r.prompts[|ws.prompts|].content == "" && r.prompts[|ws.prompts|].folderId == None
    ensures var r1 := CreatePrompt(ws, id1, defaults);
      var r2 := CreatePrompt(r1, id2, defaults);
      r2.prompts[|ws.prompts|].name != r2.prompts[|ws.prompts| + 1].name
  {
    var n1 := NatToString(|ws.prompts| + 1);
    var n2 := NatToString(|ws.prompts| + 2);
    DigitsValueOfNatToString(|ws.prompts| + 1);
    DigitsValueOfNatToString(|ws.prompts| + 2);
    assert n1 != n2;
    assert ("Prompt " + n1)[7..] == n1 && ("Prompt " + n2)[7..] == n2;
  }

  /** `handleUpdatePrompt`: every prompt with the same id becomes the given one. */
  function UpdatePrompt(ws: Workspace, p: Prompt): Workspace
  {
    ws.(prompts := seq(|ws.prompts|, k requires 0 <= k < |ws.prompts| => if ws.prompts[k].id == p.id then p else ws.prompts[k]))
  }

  /** Updating replaces exactly the prompts with that id, keeps the others
      and the length, and doing it twice is doing it once. */
  lemma UpdatePromptEffect(ws: Workspace, p: Prompt)
    ensures var r := UpdatePrompt(ws, p);
      && |r.prompts| == |ws.prompts|
      && (forall k :: 0 <= k < |ws.prompts| ==> r.prompts[k] == if ws.prompts[k].id == p.id then p else ws.prompts[k])
      && UpdatePrompt(r, p) == r
  {
  }

  /** `handleDeletePrompt`. */
  function DeletePrompt(ws: Workspace, p: Prompt): Workspace
  {
    ws.(prompts := Filter(ws.prompts, (x: Prompt) => x.id != p.id))
  }

  /** Deleting a prompt removes every prompt with its id, keeps the others and
      adds none. */
  lemma DeletePromptEffect(ws: Workspace, p: Prompt)
    ensures var r := DeletePrompt(ws, p);
      && (forall k :: 0 <= k < |r.prompts| ==> r.prompts[k].id != p.id)
      && (forall x :: x in ws.prompts && x.id != p.id ==> x in r.prompts)
      && (forall x :: x in r.prompts ==> x in ws.prompts)
      && r.folders == ws.folders && r.conversations == ws.conversations
  {
    var r := DeletePrompt(ws, p);
    forall x | x in ws.prompts && x.id != p.id
      ensures x in r.prompts
    {
      var k :| 0 <= k < |ws.prompts| && ws.prompts[k] == x;
    }
  }
}
