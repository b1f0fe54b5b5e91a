/** The "End Meeting" button (src/components/EndCallButton.tsx): when it is
    rendered, and what ending the call does. The outcome of the SDK's
    endCall() is a parameter; the status mutation runs against the
    interview table itself. */
module EndCall {
  import opened Prelude
  import opened Interviews

  /** What the component reads of the call: `call.id` and
      `call.state.createdBy?.id`. */
  datatype CallInfo = CallInfo(id: string, createdBy: Option<string>)

  datatype Effect =
    | EndCallRequested
    | StatusUpdateRequested(interviewId: DocId, status: string)
    | Navigate(path: string)
    | SuccessToast(text: string)
    | ErrorToast(text: string)

  const Ended := SuccessToast("Meeting ended successfully")
  const EndFailed := ErrorToast("Failed to end meeting")

  /** The streamCallId the component queries with. */
  function LookupKey(call: Option<CallInfo>): string {
    if call.Some? && call.value.id != "" then call.value.id else ""
  }

  /** `localParticipant?.userId === call.state.createdBy?.id`: two absent ids
      are equal too. */
  predicate IsMeetingOwner(localUserId: Option<string>, call: CallInfo) {
    localUserId == call.createdBy
  }

  /** The render guards: a call, an interview record, and a participant who
      is not the call's creator. */
  predicate ShowsButton(call: Option<CallInfo>, interview: Option<Interview>, localUserId: Option<string>) {
    call.Some? && interview.Some? && !IsMeetingOwner(localUserId, call.value)
  }

  /** The effects of handleEndCall for each outcome of its two awaited steps. */
  function EndCallTrace(interviewId: DocId, endOk: bool, updateOk: bool): seq<Effect> {
    if !endOk then [EndCallRequested, EndFailed, Navigate("/")]
    else if !updateOk then [EndCallRequested, StatusUpdateRequested(interviewId, Completed), EndFailed, Navigate("/")]
    else [EndCallRequested, StatusUpdateRequested(interviewId, Completed), Navigate("/"), Ended]
  }

  /** handleEndCall: end the call; only if that worked, mark the interview
      completed; go home and show one toast either way. */
  method HandleEndCall(store: InterviewTable, caller: Option<Identity>, interview: Interview,
                       endCallSucceeds: bool, now: int) returns (effects: seq<Effect>)
    requires store.Valid()
    modifies store
    ensures store.Valid()
    ensures store.nextId == old(store.nextId)
    ensures !endCallSucceeds ==>
              store.rows == old(store.rows) && effects == EndCallTrace(interview.id, false, false)
    ensures endCallSucceeds ==>
              store.rows == SetStatus(old(store.rows), interview.id, Completed, now)
              && effects == EndCallTrace(interview.id, true, HasId(old(store.rows), interview.id))
  {
    effects := [EndCallRequested];
    if !endCallSucceeds {
      effects := effects + [EndFailed, Navigate("/")];
      return;
    }
    effects := effects + [StatusUpdateRequested(interview.id, Completed)];
    var r := store.UpdateInterviewStatus(caller, interview.id, Completed, now);
    if r.Err? {
      effects := effects + [EndFailed, Navigate("/")];
      return;
    }
    effects := effects + [Navigate("/"), Ended];
  }

  /** Without a call or without an interview record nothing is rendered. */
  lemma NothingWithoutCallOrRecord(call: Option<CallInfo>, interview: Option<Interview>, localUserId: Option<string>)
    requires call.None? || interview.None?
    ensures !ShowsButton(call, interview, localUserId)
  {
  }

  /** The creator never sees the button (also when both ids are absent);
      any other participant does once the record is found. */
  lemma OwnerNeverSeesButton(call: CallInfo, interview: Interview, localUserId: Option<string>)
    ensures ShowsButton(Some(call), Some(interview), localUserId) <==> localUserId != call.createdBy
    ensures !ShowsButton(Some(call), Some(interview), None) <==> call.createdBy.None?
  {
  }

  /** The lookup key is the call's id, or "" without a call. */
  lemma LookupKeyIsCallId(call: Option<CallInfo>)
    ensures LookupKey(call) == if call.Some? then call.value.id else ""
  {
  }

  /** endCall comes first, the status update is attempted exactly when
      endCall succeeded, the app navigates home exactly once, and exactly
      one toast appears: the success toast only when both steps succeeded. */
  lemma EndCallTraceFacts(id: DocId, endOk: bool, updateOk: bool)
    ensures var t := EndCallTrace(id, endOk, updateOk);
            t[0] == EndCallRequested
            && (StatusUpdateRequested(id, Completed) in t <==> endOk)
            && multiset(t)[Navigate("/")] == 1
            && multiset(t)[Ended] + multiset(t)[EndFailed] == 1
            && (Ended in t <==> endOk && updateOk)
  {
  }

  /** When the button shows, the record it got is in the table under the
      call's id, so ending the call successfully completes that interview
      and stamps the clock as its end time. */
  lemma {:induction false} EndingCompletesInterview(rows: seq<Interview>, call: CallInfo, now: int)
    requires ByStreamCallId(rows, LookupKey(Some(call))).Some?
    ensures var iv := ByStreamCallId(rows, LookupKey(Some(call))).value;
            var r := SetStatus(rows, iv.id, Completed, now);
            HasId(rows, iv.id) && iv.streamCallId == call.id
            && exists i :: 0 <= i < |r| && r[i].id == iv.id && r[i].status == Completed && r[i].endTime == Some(now)
  {
    var iv := ByStreamCallId(rows, LookupKey(Some(call))).value;
    var k :| 0 <= k < |rows| && rows[k] == iv;
    var r := SetStatus(rows, iv.id, Completed, now);
    assert r[k] == Patched(rows[k], Completed, now);
  }
}
