/** The session state of the React client (`hooks/useResearch.js`): the
    history list, the selected session, and the loading, submitting and error
    flags, with the actions that update them. The hook reaches the backend only
    through `getHistory` and `postChat` of `services/api.js`, and the `calls`
    field records the calls the actions make, so that "no request is made"
    can be stated. A history fetch is given as what `getHistory` resolves with
    (the list) or rejects with (the interceptor's message); a post is given as
    the transport's reply, which `Api.PostChat` turns into what `postChat`
    resolves or rejects with. */
module UseResearch {
  import opened Wrappers
  import opened Text
  import opened Sessions
  import Api

  /** A call of the hook into `services/api.js`. */
  datatype ApiCall =
    | GetHistoryCall(userId: int)
    | PostChatCall(userId: int, query: string)

  /** The message `submitQuery` shows for a missing or blank query. */
  function EmptyQueryMessage(): string { "Please enter a research query." }

  /** A session id a JavaScript condition treats as true: present and not 0. */
  predicate Truthy(id: Option<int>) {
    id.Some? && id.value != 0
  }

  /** The selection `refreshHistory` settles on after a successful fetch of `data`:
      a truthy preferred id wins; otherwise an unset selection moves to the first
      session, a selection that vanished moves to the first session or to null,
      and a selection still present stays. */
  function ResolveSelection(current: Option<int>, preferred: Option<int>, data: seq<Session>): Option<int> {
    if Truthy(preferred) then preferred
    else if !Truthy(current) && |data| > 0 then Some(data[0].sessionId)
    else if Truthy(current) && FirstIndexWithId(data, current.value).None? then
      (if |data| > 0 then Some(data[0].sessionId) else None)
    else current
  }

  /** Without a preference, a refresh never leaves a truthy selection that is
      absent from the new list, and it selects something whenever the list is
      non-empty. */
  lemma ResolveWithoutPreference(current: Option<int>, preferred: Option<int>, data: seq<Session>)
    requires !Truthy(preferred)
    ensures var r := ResolveSelection(current, preferred, data);
      && (Truthy(r) ==> FirstIndexWithId(data, r.value).Some?)
      && (|data| > 0 ==> r.Some?)
      && (data == [] ==> r == (if Truthy(current) then None else current))
  {
    var r := ResolveSelection(current, preferred, data);
    if Truthy(r) && r != current {
      assert FirstIndexWithId(data, data[0].sessionId) == Some(0);
    }
  }

  /** Refreshing twice with no preference and an unchanged server selects the
      same session as refreshing once. */
  lemma ResolveIdempotent(current: Option<int>, data: seq<Session>)
    ensures ResolveSelection(ResolveSelection(current, None, data), None, data) == ResolveSelection(current, None, data)
  {
    var once := ResolveSelection(current, None, data);
    if |data| > 0 && once == Some(data[0].sessionId) {
      assert FirstIndexWithId(data, data[0].sessionId) == Some(0);
    }
  }

  class ResearchState {
    var userId: int
    var history: seq<Session>
    var selectedSessionId: Option<int>
    var loading: bool
    var error: Option<string>
    var submitting: bool
    var calls: seq<ApiCall>

    constructor (defaultUserId: int)
      ensures userId == defaultUserId && history == [] && selectedSessionId == None
      ensures !loading && error == None && !submitting && calls == []
    {
      userId := defaultUserId;
      history := [];
      selectedSessionId := None;
      loading := false;
      error := None;
      submitting := false;
      calls := [];
    }

    /** `selectedSession`: the first history entry with the selected id, or null. */
    function SelectedSession(): (r: Option<Session>)
      reads this
      ensures r.Some? ==> r.value in history && selectedSessionId == Some(r.value.sessionId)
      ensures r.None? <==> selectedSessionId.None? || forall s | s in history :: s.sessionId != selectedSessionId.value
      ensures forall i | 0 <= i < |history| && selectedSessionId == Some(history[i].sessionId)
                         && (forall j | 0 <= j < i :: history[j].sessionId != history[i].sessionId) :: r == Some(history[i])
    {
      if selectedSessionId.None? then None else FindSession(history, selectedSessionId.value)
    }

    /** `clearError()`. */
    method ClearError()
      modifies this`error
      ensures error == None
    {
      error := None;
    }

    /** The state `refreshHistory(preferred)` leaves when `getHistory(userId)`
        settles as `fetched`: one call; loading over; on failure the error is
        the rejection's message, history is empty and the selection stays; on
        success the error is cleared, history is the list and the selection
        follows `ResolveSelection`. */
    twostate predicate Refreshed(preferred: Option<int>, fetched: Result<seq<Session>, string>)
      reads this
    {
      && calls == old(calls) + [GetHistoryCall(userId)]
      && !loading
      && (error.Some? <==> fetched.Failure?)
      && (fetched.Failure? ==>
            error == Some(fetched.error) && history == [] && selectedSessionId == old(selectedSessionId))
      && (fetched.Success? ==>
            history == fetched.value && selectedSessionId == ResolveSelection(old(selectedSessionId), preferred, history))
    }

    /** The state `submitQuery(query)` leaves for a query with visible text,
        when the transport answers the post with `reply` and the history
        refresh that follows a successful post settles as `fetched`. The post
        settles as `postChat` does: refused when too long, otherwise the
        reply through the interceptor. */
    twostate predicate Submitted(
      query: string, reply: Result<ChatReply, Api.TransportError>,
      fetched: Result<seq<Session>, string>, new result: Option<ChatReply>)
      reads this
    {
      var posted := Api.PostChat(Some(query), reply).result;
      && !submitting
      && (result.Some? <==> posted.Success?)
      && (posted.Failure? ==>
            && error == Some(posted.error)
            && calls == old(calls) + [PostChatCall(userId, query)]
            && history == old(history) && selectedSessionId == old(selectedSessionId) && loading == old(loading))
      && (posted.Success? ==>
            && result == Some(posted.value)
            && calls == old(calls) + [PostChatCall(userId, query), GetHistoryCall(userId)]
            && !loading
            && (error.Some? <==> fetched.Failure?)
            && (fetched.Failure? ==>
                  error == Some(fetched.error) && history == [] && selectedSessionId == old(selectedSessionId))
            && (fetched.Success? ==>
                  && history == fetched.value
                  && selectedSessionId == ResolveSelection(old(selectedSessionId), posted.value.sessionId, history)))
    }

    /** `refreshHistory(preferred)`, where `getHistory(userId)` settles as `fetched`. */
    method RefreshHistory(preferred: Option<int>, fetched: Result<seq<Session>, string>)
      modifies this`history, this`selectedSessionId, this`loading, this`error, this`calls
      ensures Refreshed(preferred, fetched)
    {
      loading := true;
      ClearError();
      calls := calls + [GetHistoryCall(userId)];
      match fetched {
        case Failure(message) =>
          error := Some(message);
          history := [];
        case Success(data) =>
          history := data;
          if Truthy(preferred) {
            selectedSessionId := preferred;
          } else if !Truthy(selectedSessionId) && |data| > 0 {
            selectedSessionId := Some(data[0].sessionId);
          } else if Truthy(selectedSessionId) && FirstIndexWithId(data, selectedSessionId.value).None? {
            selectedSessionId := if |data| > 0 then Some(data[0].sessionId) else None;
          }
      }
      loading := false;
    }

    /** `submitQuery(query)`, where the transport answers the post with
        `reply` and the history refresh that follows a successful post
        settles as `fetched`. */
    method SubmitQuery(query: Option<string>, reply: Result<ChatReply, Api.TransportError>, fetched: Result<seq<Session>, string>)
      returns (result: Option<ChatReply>)
      modifies this`history, this`selectedSessionId, this`loading, this`error, this`calls, this`submitting
      ensures query.None? || IsBlank(query.value) ==>
        && result.None? && error == Some(EmptyQueryMessage())
        && calls == old(calls) && history == old(history) && selectedSessionId == old(selectedSessionId)
        && submitting == old(submitting) && loading == old(loading)
      ensures query.Some? && !IsBlank(query.value) ==> Submitted(query.value, reply, fetched, result)
      ensures query.Some? && !IsBlank(query.value) && Utf16Length(query.value) > Api.MaxQueryLength ==>
        && result.None? && error == Some(Api.Message(Api.TooLong))
        && calls == old(calls) + [PostChatCall(userId, query.value)] && history == old(history)
    {
      if query.None? || Trim(query.value) == [] {
        error := Some(EmptyQueryMessage());
        return None;
      }
      submitting := true;
      ClearError();
      calls := calls + [PostChatCall(userId, query.value)];
      var posted := Api.PostChat(query, reply).result;
      match posted {
        case Failure(message) =>
          error := Some(message);
          submitting := false;
          return None;
        case Success(chat) =>
          RefreshHistory(chat.sessionId, fetched);
          submitting := false;
          return Some(chat);
      }
    }

    /** `selectSession(id)`. */
    method SelectSession(id: Option<int>)
      modifies this`selectedSessionId, this`error
      ensures selectedSessionId == id && error == None
    {
      selectedSessionId := id;
      ClearError();
    }

    /** `updateUserId(newUserId)`: a different id resets history, selection and error. */
    method UpdateUserId(newUserId: int)
      modifies this`userId, this`history, this`selectedSessionId, this`error
      ensures newUserId == old(userId) ==>
        history == old(history) && selectedSessionId == old(selectedSessionId) && error == old(error)
      ensures newUserId != old(userId) ==> history == [] && selectedSessionId == None && error == None
      ensures userId == newUserId
    {
      if newUserId != userId {
        userId := newUserId;
        history := [];
        selectedSessionId := None;
        ClearError();
      }
    }

    /** `updateUserId` followed by the refresh the hook's effect runs when the id
        changes (and on mount), made an explicit step. */
    method SwitchUser(newUserId: int, fetched: Result<seq<Session>, string>)
      modifies this`userId, this`history, this`selectedSessionId, this`loading, this`error, this`calls
      ensures userId == newUserId
      ensures newUserId == old(userId) ==>
        && history == old(history) && selectedSessionId == old(selectedSessionId) && calls == old(calls)
        && error == old(error) && loading == old(loading)
      ensures newUserId != old(userId) ==>
        && calls == old(calls) + [GetHistoryCall(newUserId)]
        && !loading
        && (error.Some? <==> fetched.Failure?)
        && (fetched.Failure? ==> error == Some(fetched.error) && history == [] && selectedSessionId == None)
        && (fetched.Success? ==>
              && history == fetched.value
              && selectedSessionId == (if history == [] then None else Some(history[0].sessionId)))
    {
      var changed := newUserId != userId;
      UpdateUserId(newUserId);
      if changed {
        RefreshHistory(None, fetched);
      }
    }
  }

  /** The end-to-end run: an empty history for user 1, then a query that the
      backend files under session 42. */
  method EndToEndScenario()
  {
    var state := new ResearchState(1);
    state.RefreshHistory(None, Success([]));
    assert state.SelectedSession() == None && |state.history| == 0;
    var q := "qubits";
    assert !IsSpace(q[0]);
    var s42 := Session(42, q, "", Some([]));
    var reply: Result<ChatReply, Api.TransportError> := Success(ChatReply(Some(42)));
    Api.PostChatVisible(q, reply);
    assert Api.PostChat(Some(q), reply).result == Success(ChatReply(Some(42)));
    var before := state.calls;
    var result := state.SubmitQuery(Some(q), reply, Success([s42]));
    assert result == Some(ChatReply(Some(42)));
    assert state.selectedSessionId == Some(42) && |state.history| == 1;
    assert before == [GetHistoryCall(1)];
    assert state.calls == before + [PostChatCall(1, q), GetHistoryCall(1)];
  }

  /** A vanished selection falls back to the first session; a preferred id wins. */
  method SelectionScenario()
  {
    var state := new ResearchState(1);
    var s1 := Session(1, "a", "", None);
    var s2 := Session(2, "b", "", None);
    var s3 := Session(3, "c", "", None);
    state.RefreshHistory(None, Success([s1, s2]));
    state.SelectSession(Some(2));
    state.RefreshHistory(None, Success([s1, s3]));
    assert state.selectedSessionId == Some(1);
    state.RefreshHistory(Some(3), Success([s1, s3]));
    assert state.selectedSessionId == Some(3);
  }
}
