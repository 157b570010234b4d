/** The form and progress logic of the React client's main component
    (`App.jsx`). The 1-second interval that advances the progress overlay is
    modelled by `ticks`, the number of times it fires before the submission
    settles; the timeouts that hide the overlay are the method `HideProgress`. */
module App {
  import opened Wrappers
  import opened Text
  import opened Sessions
  import Api
  import Helpers
  import opened UseResearch

  const QueryLimit := 1000
  /** `steps.length` in `handleSubmitQuery`. */
  const StepCount := 4

  /** The guard of `handleSubmitQuery` and `handleFollowUp`. The text's trim is
      empty exactly when the text is blank (the contract of `Text.Trim`), so
      `!text.trim()` is written `IsBlank(text)`; the limit is on JavaScript's
      `length`, in UTF-16 code units. */
  function CanSubmit(text: string, submitting: bool): (r: bool)
    ensures r <==> !IsBlank(text) && Utf16Length(text) <= QueryLimit && !submitting
  {
    !IsBlank(text) && !Helpers.GetCharacterCount(text, QueryLimit).isOverLimit && !submitting
  }

  /** Whatever the form lets through, the hook and `postChat` let through too,
      and the trimmed text is what reaches the backend. */
  lemma CanSubmitPassesPostChat(text: string, submitting: bool, reply: Result<ChatReply, Api.TransportError>)
    requires CanSubmit(text, submitting)
    ensures !IsBlank(text) && Utf16Length(text) <= Api.MaxQueryLength
    ensures Api.PostChat(Some(text), reply).sent == Some(Trim(text))
    ensures Api.PostChat(Some(text), reply).result == Api.NormalizeError(reply)
  {
  }

  /** The interval's updater `prev => prev < steps.length - 1 ? prev + 1 : prev`. */
  function ProgressTick(prev: int): (next: int)
    ensures prev < StepCount - 1 ==> next == prev + 1
    ensures prev >= StepCount - 1 ==> next == prev
  {
    if prev < StepCount - 1 then prev + 1 else prev
  }

  function Min(a: int, b: int): int {
    if a < b then a else b
  }

  datatype StepStatus = Completed | Active | Pending

  /** How the overlay draws step `index` while the counter is at `step`. */
  function StepStatusOf(index: int, step: int): (r: StepStatus)
    ensures r == Completed <==> index < step
    ensures r == Active <==> index == step
    ensures r == Pending <==> index > step
  {
    if index < step then Completed else if index == step then Active else Pending
  }

  /** The counter colour the two forms compute inline, from the UTF-16 count. */
  function FormCounterColor(text: string): (r: Helpers.CounterColor)
    ensures var n := Utf16Length(text);
      && (r == Helpers.Red <==> n > QueryLimit)
      && (r == Helpers.Orange <==> n <= QueryLimit && Helpers.AboveEightyPercent(n, QueryLimit))
      && (r == Helpers.Green <==> n <= QueryLimit && !Helpers.AboveEightyPercent(n, QueryLimit))
  {
    var c := Helpers.GetCharacterCount(text, QueryLimit);
    if c.isOverLimit then Helpers.Red
    else if Helpers.AboveEightyPercent(c.count, c.maxLength) then Helpers.Orange
    else Helpers.Green
  }

  /** The forms agree with `getCharacterCount`'s colour except that an empty
      field shows green instead of gray. */
  lemma FormColorAgreesWithHelper(text: string)
    ensures FormCounterColor(text) ==
      (if Helpers.GetCharacterCount(text, QueryLimit).color == Helpers.Gray then Helpers.Green
       else Helpers.GetCharacterCount(text, QueryLimit).color)
  {
  }

  class AppForm {
    const research: ResearchState
    var newQuery: string
    var followUp: string
    var showProgress: bool
    var progressStep: int

    constructor (research: ResearchState)
      ensures this.research == research
      ensures newQuery == "" && followUp == "" && !showProgress && progressStep == 0
    {
      this.research := research;
      newQuery := "";
      followUp := "";
      showProgress := false;
      progressStep := 0;
    }

    /** `handleSubmitQuery`, where the transport answers the post with `reply`
        and the history refresh after a successful post settles as `fetched`. */
    method HandleSubmitQuery(
      ticks: nat,
      reply: Result<ChatReply, Api.TransportError>,
      fetched: Result<seq<Session>, string>)
      returns (result: Option<ChatReply>)
      modifies this`newQuery, this`showProgress, this`progressStep
      modifies research`history, research`selectedSessionId, research`loading, research`error,
               research`calls, research`submitting
      ensures !CanSubmit(old(newQuery), old(research.submitting)) ==>
        && result.None? && newQuery == old(newQuery)
        && showProgress == old(showProgress) && progressStep == old(progressStep)
        && research.calls == old(research.calls) && research.error == old(research.error)
        && research.history == old(research.history) && research.selectedSessionId == old(research.selectedSessionId)
        && research.loading == old(research.loading) && research.submitting == old(research.submitting)
      ensures CanSubmit(old(newQuery), old(research.submitting)) ==>
        && showProgress
        && research.Submitted(old(newQuery), reply, fetched, result)
        && research.calls == old(research.calls) + [PostChatCall(research.userId, old(newQuery))]
                             + (if reply.Success? then [GetHistoryCall(research.userId)] else [])
        && (result.Some? <==> reply.Success?)
        && (reply.Failure? ==> research.error == Some(Api.ErrorMessage(reply.error)))
        && (result.Some? ==> newQuery == "" && progressStep == StepCount)
        && (result.None? ==> newQuery == old(newQuery) && progressStep == Min(ticks, StepCount - 1))
    {
      if !CanSubmit(newQuery, research.submitting) {
        return None;
      }
      result := Submit(ticks, reply, fetched);
    }

    /** The body of `handleSubmitQuery` past its guard. Text the guard lets
        through is never refused by `postChat`, so the post settles as the
        reply does. */
    method Submit(
      ticks: nat,
      reply: Result<ChatReply, Api.TransportError>,
      fetched: Result<seq<Session>, string>)
      returns (result: Option<ChatReply>)
      requires CanSubmit(newQuery, research.submitting)
      modifies this`newQuery, this`showProgress, this`progressStep
      modifies research`history, research`selectedSessionId, research`loading, research`error,
               research`calls, research`submitting
      ensures showProgress
      ensures research.Submitted(old(newQuery), reply, fetched, result)
      ensures research.calls == old(research.calls) + [PostChatCall(research.userId, old(newQuery))]
                                + (if reply.Success? then [GetHistoryCall(research.userId)] else [])
      ensures result.Some? <==> reply.Success?
      ensures reply.Failure? ==> research.error == Some(Api.ErrorMessage(reply.error))
      ensures result.Some? ==> newQuery == "" && progressStep == StepCount
      ensures result.None? ==> newQuery == old(newQuery) && progressStep == Min(ticks, StepCount - 1)
    {
      showProgress := true;
      AdvanceProgress(ticks);
      CanSubmitPassesPostChat(newQuery, research.submitting, reply);
      ghost var query := newQuery;
      ghost var step := progressStep;
      result := research.SubmitQuery(Some(newQuery), reply, fetched);
      assert newQuery == query && progressStep == step && showProgress;
      if result.Some? {
        newQuery := "";
        progressStep := StepCount;
      }
    }

    /** The interval firing `ticks` times from a fresh counter. */
    method AdvanceProgress(ticks: nat)
      modifies this`progressStep
      ensures progressStep == Min(ticks, StepCount - 1)
    {
      progressStep := 0;
      var i := 0;
      while i < ticks
        invariant 0 <= i <= ticks
        invariant progressStep == Min(i, StepCount - 1)
      {
        progressStep := ProgressTick(progressStep);
        i := i + 1;
      }
    }

    /** The timeouts scheduled when a submission settles: hide the overlay. */
    method HideProgress()
      modifies this`showProgress, this`progressStep
      ensures !showProgress && progressStep == 0
    {
      showProgress := false;
      progressStep := 0;
    }

    /** `handleFollowUp`: same guard, the post and refresh of `submitQuery`,
        and the field is cleared only on success. */
    method HandleFollowUp(
      reply: Result<ChatReply, Api.TransportError>,
      fetched: Result<seq<Session>, string>)
      returns (result: Option<ChatReply>)
      modifies this`followUp
      modifies research`history, research`selectedSessionId, research`loading, research`error,
               research`calls, research`submitting
      ensures !CanSubmit(old(followUp), old(research.submitting)) ==>
        && result.None? && followUp == old(followUp)
        && research.calls == old(research.calls) && research.error == old(research.error)
        && research.history == old(research.history) && research.selectedSessionId == old(research.selectedSessionId)
        && research.loading == old(research.loading) && research.submitting == old(research.submitting)
      ensures CanSubmit(old(followUp), old(research.submitting)) ==>
        && research.Submitted(old(followUp), reply, fetched, result)
        && research.calls == old(research.calls) + [PostChatCall(research.userId, old(followUp))]
                             + (if reply.Success? then [GetHistoryCall(research.userId)] else [])
        && (result.Some? <==> reply.Success?)
        && (reply.Failure? ==> research.error == Some(Api.ErrorMessage(reply.error)))
        && followUp == (if result.Some? then "" else old(followUp))
    {
      if !CanSubmit(followUp, research.submitting) {
        return None;
      }
      CanSubmitPassesPostChat(followUp, research.submitting, reply);
      result := research.SubmitQuery(Some(followUp), reply, fetched);
      if result.Some? {
        followUp := "";
      }
    }

    /** `handleRefresh`: refresh with the current selection as the preferred id,
        so a truthy selection survives even when the session is gone. */
    method HandleRefresh(fetched: Result<seq<Session>, string>)
      modifies research`history, research`selectedSessionId, research`loading, research`error, research`calls
      ensures research.Refreshed(old(research.selectedSessionId), fetched)
      ensures fetched.Success? && Truthy(old(research.selectedSessionId)) ==>
        research.selectedSessionId == old(research.selectedSessionId)
      ensures fetched.Success? && !Truthy(old(research.selectedSessionId)) ==>
        research.selectedSessionId == ResolveSelection(old(research.selectedSessionId), None, research.history)
    {
      research.RefreshHistory(research.selectedSessionId, fetched);
    }

    /** `handleClear`: deselect. */
    method HandleClear()
      modifies research`selectedSessionId, research`error
      ensures research.selectedSessionId == None && research.error == None
    {
      research.SelectSession(None);
    }
  }
}
