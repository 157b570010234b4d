/** The Streamlit client (`streamlit_app.py`): its session state, the
    history refresh and selection rule, the chat pane's choice of session,
    message order, role display, the summary pane and the query form.
    Replies of the backend are parameters; failures are the exceptions
    `requests` raises. Widget calls and page layout are not modelled. */
module StreamlitApp {
  import opened Wrappers
  import opened Text
  import opened Sessions
  import opened Sorting
  import Api

  /** `rstrip("/")`: every trailing slash removed. */
  function RStripSlashes(s: string): (r: string)
    ensures r <= s
    ensures r == [] || r[|r| - 1] != '/'
    ensures forall i | |r| <= i < |s| :: s[i] == '/'
  {
    if s != [] && s[|s| - 1] == '/' then RStripSlashes(s[..|s| - 1]) else s
  }

  /** The React client's base URL keeps all but one trailing slash; this one
      keeps none, and stripping one more slash from it changes nothing. */
  lemma ApiBaseStripsAllSlashes(s: string)
    ensures Api.StripTrailingSlash(RStripSlashes(s)) == RStripSlashes(s)
    ensures RStripSlashes("h//") == "h" && Api.StripTrailingSlash("h//") == "h/"
  {
    assert "h//"[..2] == "h/" && "h/"[..1] == "h";
  }

  /** Python's `a <= b` on strings: lexicographic by code point. */
  function StrLeq(a: string, b: string): bool {
    if a == [] then true
    else if b == [] then false
    else if a[0] != b[0] then a[0] < b[0]
    else StrLeq(a[1..], b[1..])
  }

  lemma {:induction false} StrLeqTotal(a: string, b: string)
    ensures StrLeq(a, b) || StrLeq(b, a)
  {
    if a != [] && b != [] && a[0] == b[0] {
      StrLeqTotal(a[1..], b[1..]);
    }
  }

  lemma {:induction false} StrLeqTransitive(a: string, b: string, c: string)
    requires StrLeq(a, b) && StrLeq(b, c)
    ensures StrLeq(a, c)
  {
    if a != [] && b != [] && c != [] && a[0] == b[0] && b[0] == c[0] {
      StrLeqTransitive(a[1..], b[1..], c[1..]);
    }
  }

  /** `m.get("timestamp", "")`. */
  function TimestampKey(m: Message): string {
    m.timestamp.GetOr("")
  }

  function ByTimestamp(): (Message, Message) -> bool {
    (a: Message, b: Message) => StrLeq(TimestampKey(a), TimestampKey(b))
  }

  lemma ByTimestampIsTotalPreorder()
    ensures TotalPreorder(ByTimestamp())
  {
    forall a: Message, b: Message ensures ByTimestamp()(a, b) || ByTimestamp()(b, a) {
      StrLeqTotal(TimestampKey(a), TimestampKey(b));
    }
    forall a: Message, b: Message, c: Message | ByTimestamp()(a, b) && ByTimestamp()(b, c)
      ensures ByTimestamp()(a, c)
    {
      StrLeqTransitive(TimestampKey(a), TimestampKey(b), TimestampKey(c));
    }
  }

  /** `sorted(msgs, key=lambda m: m.get("timestamp", ""))`: stable. */
  function SortMessages(msgs: seq<Message>): (r: seq<Message>)
    ensures multiset(r) == multiset(msgs)
    ensures forall i, j | 0 <= i < j < |r| :: StrLeq(TimestampKey(r[i]), TimestampKey(r[j]))
    ensures forall k :: Ties(r, k, ByTimestamp()) == Ties(msgs, k, ByTimestamp())
  {
    ByTimestampIsTotalPreorder();
    var r := SortBy(msgs, ByTimestamp());
    assert Sorted(r, ByTimestamp());
    forall k ensures Ties(r, k, ByTimestamp()) == Ties(msgs, k, ByTimestamp()) {
      SortByStable(msgs, k, ByTimestamp());
    }
    r
  }

  datatype Bubble = UserBubble | AssistantBubble

  datatype RoleDisplay = RoleDisplay(bubble: Bubble, who: string)

  lemma {:induction false} CapitalizeIgnoresCase(s: string)
    ensures Capitalize(s) == Capitalize(ToLower(s))
  {
    if s != [] {
      assert ToLower(s)[1..] == ToLower(s[1..]);
      ToLowerIdempotent(s[1..]);
    }
  }

  /** The bubble and the name shown for a message's role (missing: "assistant").
      The name depends on the role's letters only, not on their case: it is
      the capitalised lower-case role. */
  function DisplayRole(role: Option<string>): (r: RoleDisplay)
    ensures var lower := ToLower(role.GetOr("assistant"));
      && (lower == "user" ==> r == RoleDisplay(UserBubble, Capitalize(lower)))
      && (lower == "retriever" ==> r == RoleDisplay(AssistantBubble, Capitalize(lower)))
      && (lower == "critic" ==> r == RoleDisplay(AssistantBubble, Capitalize(lower)))
      && (lower != "user" && lower != "retriever" && lower != "critic" ==> r == RoleDisplay(AssistantBubble, "Assistant"))
  {
    var name := role.GetOr("assistant");
    var lower := ToLower(name);
    CapitalizeIgnoresCase(name);
    if lower == "user" || lower == "retriever" || lower == "critic" then
      RoleDisplay(if lower == "user" then UserBubble else AssistantBubble, Capitalize(name))
    else
      RoleDisplay(AssistantBubble, "Assistant")
  }

  /** Index of the last message whose role is exactly "assistant". */
  function LastAssistantIndex(msgs: seq<Message>): (r: Option<nat>)
    ensures r.Some? ==> r.value < |msgs| && msgs[r.value].role == Some("assistant")
    ensures r.Some? ==> forall j | r.value < j < |msgs| :: msgs[j].role != Some("assistant")
    ensures r.None? <==> forall j | 0 <= j < |msgs| :: msgs[j].role != Some("assistant")
  {
    if msgs == [] then None
    else if msgs[|msgs| - 1].role == Some("assistant") then Some(|msgs| - 1)
    else LastAssistantIndex(msgs[..|msgs| - 1])
  }

  /** The summary pane's search over `reversed(messages)`: the content of the
      last "assistant" message, `None` when there is none (or it has no content). */
  method LastAssistantContent(msgs: seq<Message>) returns (final: Option<string>)
    ensures final == (match LastAssistantIndex(msgs) case None => None case Some(i) => msgs[i].content)
  {
    final := None;
    var k := |msgs|;
    while k > 0
      invariant 0 <= k <= |msgs|
      invariant forall j | k <= j < |msgs| :: msgs[j].role != Some("assistant")
      invariant final == None
    {
      k := k - 1;
      if msgs[k].role == Some("assistant") {
        assert LastAssistantIndex(msgs) == Some(k) by {
          LastAssistantFrom(msgs, k);
        }
        return msgs[k].content;
      }
    }
  }

  lemma {:induction false} LastAssistantFrom(msgs: seq<Message>, k: nat)
    requires k < |msgs| && msgs[k].role == Some("assistant")
    requires forall j | k < j < |msgs| :: msgs[j].role != Some("assistant")
    ensures LastAssistantIndex(msgs) == Some(k)
  {
    if k < |msgs| - 1 {
      var prefix := msgs[..|msgs| - 1];
      assert prefix[k] == msgs[k];
      LastAssistantFrom(prefix, k);
    }
  }

  /** The chat pane's loop: the first session whose id equals the selection. */
  method FindSelected(history: seq<Session>, id: Option<int>) returns (found: Option<Session>)
    ensures found == (if id.None? then None else FindSession(history, id.value))
  {
    if id.None? {
      return None;
    }
    var i := 0;
    while i < |history|
      invariant 0 <= i <= |history|
      invariant forall j | 0 <= j < i :: history[j].sessionId != id.value
    {
      if history[i].sessionId == id.value {
        assert FirstIndexWithId(history, id.value) == Some(i) by {
          FirstIndexAt(history, id.value, i);
        }
        return Some(history[i]);
      }
      i := i + 1;
    }
    return None;
  }

  lemma {:induction false} FirstIndexAt(history: seq<Session>, id: int, i: nat)
    requires i < |history| && history[i].sessionId == id
    requires forall j | 0 <= j < i :: history[j].sessionId != id
    ensures FirstIndexWithId(history, id) == Some(i)
  {
    if i > 0 {
      var tail := history[1..];
      assert tail[i - 1] == history[i];
      FirstIndexAt(tail, id, i - 1);
    }
  }

  class StreamlitState {
    var apiBase: string
    var userId: int
    var history: seq<Session>
    var selectedSessionId: Option<int>
    var busy: bool
    var requests: seq<Request>

    /** The session-state defaults set on first run. */
    constructor (defaultApiBase: string, defaultUserId: int)
      ensures apiBase == defaultApiBase && userId == defaultUserId
      ensures history == [] && selectedSessionId == None && !busy && requests == []
    {
      apiBase := defaultApiBase;
      userId := defaultUserId;
      history := [];
      selectedSessionId := None;
      busy := false;
      requests := [];
    }

    /** `api_base()`. */
    function ApiBase(): (r: string)
      reads this
      ensures r <= apiBase && (r == [] || r[|r| - 1] != '/')
      ensures forall i | |r| <= i < |apiBase| :: apiBase[i] == '/'
    {
      RStripSlashes(apiBase)
    }

    /** `refresh_history_and_select(session_id)`: a failed fetch yields `[]`; an
        explicit id is selected as is, otherwise the first session or None. */
    method RefreshHistoryAndSelect(sessionId: Option<int>, fetched: Result<seq<Session>, string>)
      modifies this`history, this`selectedSessionId, this`requests
      ensures requests == old(requests) + [HistoryRequest(userId)]
      ensures history == (if fetched.Success? then fetched.value else [])
      ensures sessionId.Some? ==> selectedSessionId == sessionId
      ensures sessionId.None? ==> selectedSessionId == (if history == [] then None else Some(history[0].sessionId))
      ensures sessionId.None? ==>
        (selectedSessionId.Some? <==> history != []) &&
        (selectedSessionId.Some? ==> FirstIndexWithId(history, selectedSessionId.value) == Some(0))
    {
      requests := requests + [HistoryRequest(userId)];
      history := if fetched.Success? then fetched.value else [];
      if sessionId.None? {
        if history != [] {
          selectedSessionId := Some(history[0].sessionId);
        } else {
          selectedSessionId := None;
        }
      } else {
        selectedSessionId := sessionId;
      }
    }

    /** The sidebar's first step: load the history when it is empty. */
    method LoadIfEmpty(fetched: Result<seq<Session>, string>)
      modifies this`history, this`selectedSessionId, this`requests
      ensures old(history) != [] ==>
        history == old(history) && selectedSessionId == old(selectedSessionId) && requests == old(requests)
      ensures old(history) == [] ==>
        && requests == old(requests) + [HistoryRequest(userId)]
        && history == (if fetched.Success? then fetched.value else [])
        && selectedSessionId == (if history == [] then None else Some(history[0].sessionId))
    {
      if history == [] {
        RefreshHistoryAndSelect(None, fetched);
      }
    }

    /** The "Refresh history" button: refresh keeping the current selection. */
    method RefreshButton(fetched: Result<seq<Session>, string>)
      modifies this`history, this`selectedSessionId, this`requests
      ensures requests == old(requests) + [HistoryRequest(userId)]
      ensures history == (if fetched.Success? then fetched.value else [])
      ensures old(selectedSessionId).Some? ==> selectedSessionId == old(selectedSessionId)
      ensures old(selectedSessionId).None? ==>
        selectedSessionId == (if history == [] then None else Some(history[0].sessionId))
    {
      RefreshHistoryAndSelect(selectedSessionId, fetched);
    }

    /** A session button in the sidebar: select that session. */
    method SelectSession(sessionId: int)
      modifies this`selectedSessionId
      ensures selectedSessionId == Some(sessionId)
    {
      selectedSessionId := Some(sessionId);
    }

    /** The "Clear selection" button. */
    method ClearSelection()
      modifies this`selectedSessionId
      ensures selectedSessionId == None
    {
      selectedSessionId := None;
    }

    /** The chat pane: the selected session, falling back to the first one (and
        selecting it) when the selection matches nothing. */
    method ChatPane() returns (selected: Option<Session>)
      modifies this`selectedSessionId
      ensures old(selectedSessionId).Some? && FindSession(history, old(selectedSessionId).value).Some? ==>
        selected == FindSession(history, old(selectedSessionId).value) && selectedSessionId == old(selectedSessionId)
      ensures (old(selectedSessionId).None? || FindSession(history, old(selectedSessionId).value).None?) ==>
        && (history == [] ==> selected.None? && selectedSessionId == old(selectedSessionId))
        && (history != [] ==> selected == Some(history[0]) && selectedSessionId == Some(history[0].sessionId))
      ensures selected.Some? ==> selected.value in history && selectedSessionId == Some(selected.value.sessionId)
    {
      selected := FindSelected(history, selectedSessionId);
      if selected.None? && history != [] {
        selected := Some(history[0]);
        selectedSessionId := Some(history[0].sessionId);
      }
    }

    /** The query form: a blank query does nothing; otherwise the stripped
        query is posted, the reply's session is selected if it has one, and
        otherwise the default refresh runs. `posted` is `None` when
        `post_chat` caught an exception. */
    method SubmitForm(query: string, posted: Option<ChatReply>, fetched: Result<seq<Session>, string>)
      modifies this`history, this`selectedSessionId, this`requests, this`busy
      ensures IsBlank(query) ==>
        history == old(history) && selectedSessionId == old(selectedSessionId)
        && requests == old(requests) && busy == old(busy)
      ensures !IsBlank(query) ==>
        && !busy
        && requests == old(requests) + [ChatRequest(userId, Trim(query)), HistoryRequest(userId)]
        && history == (if fetched.Success? then fetched.value else [])
        && (posted.Some? && posted.value.sessionId.Some? ==> selectedSessionId == posted.value.sessionId)
        && (posted.None? || posted.value.sessionId.None? ==>
              selectedSessionId == (if history == [] then None else Some(history[0].sessionId)))
    {
      if Trim(query) == [] {
        return;
      }
      busy := true;
      requests := requests + [ChatRequest(userId, Trim(query))];
      if posted.Some? && posted.value.sessionId.Some? {
        RefreshHistoryAndSelect(posted.value.sessionId, fetched);
      } else {
        RefreshHistoryAndSelect(None, fetched);
      }
      busy := false;
    }
  }
}
