/** The chat client's records: messages, conversations, folders and prompts. */
module ChatTypes {
  import opened Common

  /** `Message.role`: what the user typed, what the assistant answered, or an
      annotation listing the document excerpts an answer came from. */
  datatype Role = User | Assistant | Source

  datatype Message = Message(role: Role, content: string)

  datatype FolderType = ChatFolder | PromptFolder

  datatype Folder = Folder(id: string, name: string, kind: FolderType)

  /** A conversation; `model` stands for the selected model's identifier. */
  datatype Conversation = Conversation(
    id: string,
    name: string,
    messages: seq<Message>,
    model: string,
    prompt: string,
    folderId: Option<string>)

  datatype Prompt = Prompt(
    id: string,
    name: string,
    description: string,
    content: string,
    model: string,
    folderId: Option<string>)

  /** Values the page falls back on: the default model and system prompt. */
  datatype AppDefaults = AppDefaults(model: string, systemPrompt: string)
}
