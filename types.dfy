/** Data model of the generation assistant: files, snapshots, messages,
    conversations, stream events, dispatched store actions and the parsed
    form of persisted state. */
module Types {

  datatype Option<+T> = None | Some(value: T)

  datatype Role = User | Model | System
  datatype Language = Html | Css | JavaScript | Markdown
  datatype FileStatus = Streaming | Completed
  datatype View = Preview | Code | Split | Browser
  datatype InteractionMode = Select | Navigate

  /** A project file; names are the merge key. */
  datatype File = File(name: string, content: string, language: Language)

  /** A file of the live generation buffer, with its streaming status. */
  datatype LiveFile = LiveFile(name: string, content: string, language: Language, status: FileStatus)

  /** One committed snapshot of the project. */
  datatype HistoryState = HistoryState(files: seq<File>)

  datatype UploadedImage = UploadedImage(base64: string, mimeType: string)
  datatype SelectedElement = SelectedElement(id: string, html: string)

  datatype WebSource = WebSource(uri: string, title: string)
  datatype GroundingChunk = GroundingChunk(web: Option<WebSource>)

  datatype NamedDescription = NamedDescription(name: string, description: string)
  datatype PaletteEntry = PaletteEntry(name: string, hex: string)
  datatype Typography = Typography(primary: string, secondary: Option<string>)
  /** The structured preview a generation may announce; informational only. */
  datatype AgentPlan = AgentPlan(
    overview: string,
    fileStructure: seq<NamedDescription>,
    palette: seq<PaletteEntry>,
    typography: Typography,
    componentBreakdown: seq<NamedDescription>)

  /** A chat message; optional properties are `None` when absent. */
  datatype Message = Message(
    id: string,
    role: Role,
    content: string,
    image: Option<UploadedImage>,
    elementHtml: Option<string>,
    isThinking: Option<bool>,
    isStreaming: Option<bool>,
    files: Option<seq<File>>,
    groundingMetadata: Option<seq<GroundingChunk>>,
    plan: Option<AgentPlan>)

  /** A conversation as the chat store holds it. */
  datatype Chat = Chat(
    id: string,
    name: string,
    createdAt: int,
    history: seq<HistoryState>,
    historyIndex: int,
    messages: seq<Message>)

  /** The events the generation stream yields, in order. */
  datatype Event =
    | AgentPlanEvent(plan: AgentPlan)
    | FileCreate(file: File)
    | FileChunk(name: string, chunk: string)
    | FileComplete(name: string)
    | MetadataEvent(citations: seq<GroundingChunk>)
    | ResultEvent(resultFiles: seq<File>, fallbackText: Option<string>)

  /** A value produced by `JSON.parse`. Numbers are integers in this model. */
  datatype Json =
    | JNull
    | JBool(b: bool)
    | JNum(n: int)
    | JStr(s: string)
    | JArr(items: seq<Json>)
    | JObj(fields: map<string, Json>)

  /** A conversation as the load-time sanitiser produces it: the message log
      and the history keep the parsed values they were loaded from. */
  datatype StoredChat = StoredChat(
    id: string,
    name: string,
    createdAt: int,
    history: seq<Json>,
    historyIndex: int,
    messages: seq<Json>)

  /** The actions handed to the chat store's dispatch, recorded in order. */
  datatype Action =
    | UpdateMessages(messages: seq<Message>)
    | SetAgentPlan(plan: AgentPlan)
    | FinishStreaming(content: string, files: seq<File>, groundingMetadata: Option<seq<GroundingChunk>>)
    | PushToHistory(state: HistoryState)
    | Undo
    | Redo
    | LoadState(chats: seq<StoredChat>, activeChatId: Option<string>)
    | CreateChat
    | SelectChat(id: string)
    | RenameChat(chatId: string, newName: string)
    | DeleteChat(deletedId: string)

  /** Concatenation regroups; stated once so that proofs need not search for it. */
  lemma AppendAssoc<T>(a: seq<T>, b: seq<T>, c: seq<T>)
    ensures a + b + c == a + (b + c)
  {
  }
}
