/** What the React client's conversation pane shows
    (`components/chat/ChatContainer.jsx`): which branch renders, the message
    order and the message-count label. Timestamps are parsed by the abstract
    `parseTime`, which stands for `new Date(timestamp).getTime()`. */
module ChatContainer {
  import opened Wrappers
  import opened Text
  import opened Sessions
  import opened Sorting

  /** `new Date(m.timestamp || 0).getTime()`: a missing or empty timestamp is 0. */
  function TimeKey(m: Message, parseTime: string -> int): int {
    if m.timestamp.None? || m.timestamp.value == [] then 0 else parseTime(m.timestamp.value)
  }

  /** The order the comparator `timeA - timeB` induces. */
  function ByTime(parseTime: string -> int): (Message, Message) -> bool {
    (a: Message, b: Message) => TimeKey(a, parseTime) <= TimeKey(b, parseTime)
  }

  lemma ByTimeIsTotalPreorder(parseTime: string -> int)
    ensures TotalPreorder(ByTime(parseTime))
  {
  }

  /** `[...messages].sort(...)`: a sorted copy; ties keep their original order. */
  function SortMessages(messages: seq<Message>, parseTime: string -> int): (r: seq<Message>)
    ensures multiset(r) == multiset(messages)
    ensures forall i, j | 0 <= i < j < |r| :: TimeKey(r[i], parseTime) <= TimeKey(r[j], parseTime)
    ensures forall k :: Ties(r, k, ByTime(parseTime)) == Ties(messages, k, ByTime(parseTime))
  {
    ByTimeIsTotalPreorder(parseTime);
    var r := SortBy(messages, ByTime(parseTime));
    assert Sorted(r, ByTime(parseTime));
    forall k ensures Ties(r, k, ByTime(parseTime)) == Ties(messages, k, ByTime(parseTime)) {
      SortByStable(messages, k, ByTime(parseTime));
    }
    r
  }

  /** "N message" for exactly one message, "N messages" otherwise. */
  function CountLabel(n: nat): (r: string)
    ensures n == 1 ==> r == "1 message"
    ensures n != 1 ==> r == IntToString(n) + " messages"
  {
    IntToString(n) + " message" + (if n != 1 then "s" else "")
  }

  datatype View =
    | LoadingView
    | ErrorView(message: string)
    | WelcomeView
    | ReadyView(sessionId: int)
    | ConversationView(sessionId: int, countLabel: string, messages: seq<Message>)

  /** The early returns of `ChatContainer`, in order: loading, error, no session,
      no messages, conversation. */
  function Render(session: Option<Session>, loading: bool, error: Option<string>, parseTime: string -> int): (v: View)
    ensures loading ==> v == LoadingView
    ensures !loading && error.Some? && error.value != [] ==> v == ErrorView(error.value)
    ensures v.WelcomeView? <==> !loading && (error.None? || error.value == []) && session.None?
    ensures v.ReadyView? <==>
      !loading && (error.None? || error.value == []) && session.Some? && MessagesOf(session.value) == []
    ensures v.ReadyView? ==> v.sessionId == session.value.sessionId
    ensures v.ConversationView? <==>
      !loading && (error.None? || error.value == []) && session.Some? && MessagesOf(session.value) != []
    ensures v.ConversationView? ==>
      && v.sessionId == session.value.sessionId
      && v.countLabel == CountLabel(|MessagesOf(session.value)|)
      && v.messages == SortMessages(MessagesOf(session.value), parseTime)
      && multiset(v.messages) == multiset(MessagesOf(session.value))
      && (forall i, j | 0 <= i < j < |v.messages| :: TimeKey(v.messages[i], parseTime) <= TimeKey(v.messages[j], parseTime))
  {
    if loading then LoadingView
    else if error.Some? && error.value != [] then ErrorView(error.value)
    else if session.None? then WelcomeView
    else
      var messages := MessagesOf(session.value);
      if messages == [] then ReadyView(session.value.sessionId)
      else ConversationView(session.value.sessionId, CountLabel(|messages|), SortMessages(messages, parseTime))
  }
}
