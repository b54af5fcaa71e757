/** JSON-RPC messages as the relay sees them: `method` (here `name`) and `id` peeked, and of the rest only the
    facts some decision depends on. */
module Messages {
  import opened Wrappers
  import opened ServerStates

  datatype RequestId = Number(n: int) | Text(s: string)

  /** What to do with the upstream's answer to `initialize`. */
  datatype InitializeAction = NotASuccess | UpstreamDeclares | Unrewritable | Rewritable

  /** Why lsp-det answers a request with an error. */
  datatype Reason =
    | HealthIsError(detail: Option<string>)
    | CancelledWhileWaiting
    | ShutdownWhileWaiting
    | ExitedWhileWaiting
    | ExitedBeforeInitialize

  /** One entry of `contentChanges`: the whole text, or a range of it. */
  datatype Edit = FullText(text: string) | Splice(from: nat, to: nat, text: string)

  /** The content of a message beyond `method` and `id`. */
  datatype Payload =
    | Opaque(tag: int)
    | Null
    | State(state: ServerState)
    | Failure(code: int, reason: Reason)
    | CancelParams(target: RequestId)
    | InitializeParams(declaresState: bool, declaresProgress: bool, declaresWatchedFiles: bool)
    | InitializeResult(action: InitializeAction)
    | Document(uri: string, version: int, text: string)
    | DocumentId(uri: string)
    | Changes(uri: string, version: int, edits: seq<Edit>)
    /** The client's `initialize` with the capabilities and options injected. */
    | Injected(original: Payload)
    /** An `InitializeResult` with the relay's declaration added. */
    | Declaring(original: Payload)

  /** The methods some decision looks at, and all others by name. */
  datatype Method =
    | Initialize | Initialized | Shutdown | CancelRequest
    | DidOpen | DidChange | DidClose | DidChangeWatchedFiles
    | WorkDoneProgressCreate
    | ServerStateRequest | ServerStateChanged
    | References | Definition | TypeDefinition | Declaration | Implementation | WorkspaceSymbol
    | PrepareCallHierarchy | IncomingCalls | OutgoingCalls | Rename | PrepareRename
    | Other(name: string)

  datatype Message =
    | Request(id: RequestId, name: Method, payload: Payload)
    | Notification(name: Method, payload: Payload)
    | Response(id: RequestId, payload: Payload)
    /** Valid JSON with neither `method` nor `id`. */
    | Bare(payload: Payload)
    /** Not JSON: the peek fails. */
    | Unreadable(tag: int)

  const INTERNAL_ERROR := -32603
  const REQUEST_CANCELLED := -32800
  const REQUEST_FAILED := -32803

  const SELF_STATE_REQUEST_ID := Text("lsp-det:serverState")

  function ErrorResponse(id: RequestId, code: int, reason: Reason): Message {
    Response(id, Failure(code, reason))
  }
}
