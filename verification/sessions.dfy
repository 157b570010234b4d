/** The records the history endpoint returns and both clients consume, and
    the requests a client can send to the backend. */
module Sessions {
  import opened Wrappers

  /** One turn of a conversation. Each field may be missing from the JSON. */
  datatype Message = Message(role: Option<string>, content: Option<string>, timestamp: Option<string>)

  /** A research session as `GET /api/history/{user_id}` returns it. */
  datatype Session = Session(sessionId: int, query: string, createdAt: string, messages: Option<seq<Message>>)

  /** The body `POST /api/chat` answers with; `session_id` may be absent. */
  datatype ChatReply = ChatReply(sessionId: Option<int>)

  /** A request a client sends to the backend. */
  datatype Request =
    | HistoryRequest(userId: int)
    | ChatRequest(userId: int, query: string)

  /** `session.messages || []` and `session.get("messages", [])`. */
  function MessagesOf(s: Session): seq<Message> {
    s.messages.GetOr([])
  }

  /** Index of the first session whose id is `id`, if any. */
  function FirstIndexWithId(history: seq<Session>, id: int): (r: Option<nat>)
    ensures r.Some? ==> r.value < |history| && history[r.value].sessionId == id
    ensures r.Some? ==> forall j | 0 <= j < r.value :: history[j].sessionId != id
    ensures r.None? <==> forall j | 0 <= j < |history| :: history[j].sessionId != id
  {
    if history == [] then None
    else if history[0].sessionId == id then Some(0)
    else match FirstIndexWithId(history[1..], id)
      case None => None
      case Some(i) => Some(i + 1)
  }

  /** `history.find(s => s.session_id === id)`: the first session with that id. */
  function FindSession(history: seq<Session>, id: int): (r: Option<Session>)
    ensures r.Some? ==> r.value in history && r.value.sessionId == id
    ensures r.None? <==> forall s | s in history :: s.sessionId != id
    ensures forall i | 0 <= i < |history| && history[i].sessionId == id
                       && (forall j | 0 <= j < i :: history[j].sessionId != id) :: r == Some(history[i])
  {
    match FirstIndexWithId(history, id)
    case None => None
    case Some(i) => Some(history[i])
  }
}
