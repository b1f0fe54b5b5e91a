/** The `interviews` table and its five handlers (convex/interview.ts).
    Rows are kept in insertion order, which is also the order the database
    returns them in for an equality index; document ids come from a counter.
    The caller's identity and the clock are parameters. */
module Interviews {
  import opened Prelude

  /** What `ctx.auth.getUserIdentity()` yields for a signed-in caller. */
  datatype Identity = Identity(subject: string)

  datatype StoreError = NotAuthenticated | NoSuchDocument

  /** The arguments of createInterview. */
  datatype InterviewArgs = InterviewArgs(
    title: string,
    description: Option<string>,
    startTime: int,
    status: string,
    streamCallId: string,
    candidateId: string,
    interviewerIds: seq<string>)

  /** A stored interview: the arguments it was created with, its id, and the
      end time that only updateInterviewStatus ever writes. */
  datatype Interview = Interview(
    id: DocId,
    title: string,
    description: Option<string>,
    startTime: int,
    status: string,
    streamCallId: string,
    candidateId: string,
    interviewerIds: seq<string>,
    endTime: Option<int>)

  const Completed := "completed"

  /** The record `ctx.db.insert("interviews", {...args})` stores. */
  function FromArgs(id: DocId, args: InterviewArgs): Interview {
    Interview(id, args.title, args.description, args.startTime, args.status,
              args.streamCallId, args.candidateId, args.interviewerIds, None)
  }

  /** Everything but the status and the end time. */
  predicate SameExceptStatus(a: Interview, b: Interview) {
    a.(status := b.status, endTime := b.endTime) == b
  }

  /** The patch of updateInterviewStatus applied to one record: the status is
      replaced, and the end time is stamped with the clock only when the new
      status is "completed". */
  function Patched(iv: Interview, status: string, now: int): (r: Interview)
    ensures SameExceptStatus(iv, r) && r.status == status
    ensures status == Completed ==> r.endTime == Some(now)
    ensures status != Completed ==> r.endTime == iv.endTime
  {
    iv.(status := status, endTime := if status == Completed then Some(now) else iv.endTime)
  }

  /** The table after `ctx.db.patch(interviewId, ...)`. */
  function SetStatus(rows: seq<Interview>, id: DocId, status: string, now: int): (r: seq<Interview>)
    ensures |r| == |rows|
    ensures forall i :: 0 <= i < |rows| && rows[i].id != id ==> r[i] == rows[i]
    ensures forall i :: 0 <= i < |rows| && rows[i].id == id ==> r[i] == Patched(rows[i], status, now)
  {
    seq(|rows|, i requires 0 <= i < |rows| => if rows[i].id == id then Patched(rows[i], status, now) else rows[i])
  }

  predicate HasId(rows: seq<Interview>, id: DocId) {
    exists i :: 0 <= i < |rows| && rows[i].id == id
  }

  /** Ids strictly increase along the table and stay below the next id. */
  predicate WellKeyed(rows: seq<Interview>, nextId: DocId) {
    && (forall i, j :: 0 <= i < j < |rows| ==> rows[i].id < rows[j].id)
    && (forall i :: 0 <= i < |rows| ==> rows[i].id < nextId)
  }

  /** The interviews of one candidate, in table order (the
      `by_candidate_id` index). */
  function WithCandidate(rows: seq<Interview>, candidateId: string): (r: seq<Interview>)
    ensures forall i :: 0 <= i < |r| ==> r[i] in rows && r[i].candidateId == candidateId
    ensures forall i :: 0 <= i < |rows| && rows[i].candidateId == candidateId ==> rows[i] in r
    ensures IsSubsequence(r, rows)
    ensures forall iv | iv in rows ::
              multiset(r)[iv] == if iv.candidateId == candidateId then multiset(rows)[iv] else 0
  {
    Filter(rows, (iv: Interview) => iv.candidateId == candidateId)
  }

  /** The first interview of a call (`by_stream_call_id` index, `.first()`). */
  function ByStreamCallId(rows: seq<Interview>, streamCallId: string): (r: Option<Interview>)
    ensures r.None? <==> forall i :: 0 <= i < |rows| ==> rows[i].streamCallId != streamCallId
    ensures r.Some? ==> exists k :: 0 <= k < |rows| && rows[k] == r.value
                                    && r.value.streamCallId == streamCallId
                                    && forall j :: 0 <= j < k ==> rows[j].streamCallId != streamCallId
  {
    FirstWhere(rows, (iv: Interview) => iv.streamCallId == streamCallId)
  }

  class InterviewTable {
    var rows: seq<Interview>
    var nextId: DocId

    ghost predicate Valid()
      reads this
    {
      WellKeyed(rows, nextId)
    }

    constructor ()
      ensures Valid() && rows == []
    {
      rows := [];
      nextId := 0;
    }

    /** getAllInterviews: every record, or an error for an anonymous caller. */
    function GetAllInterviews(caller: Option<Identity>): (r: Result<seq<Interview>, StoreError>)
      reads this
      ensures caller.None? <==> r == Err(NotAuthenticated)
      ensures caller.Some? ==> r == Ok(rows)
    {
      if caller.None? then Err(NotAuthenticated) else Ok(rows)
    }

    /** getMyInterviews: the caller's own interviews as candidate. */
    function GetMyInterviews(caller: Option<Identity>): (r: Result<seq<Interview>, StoreError>)
      reads this
      ensures caller.None? <==> r == Err(NotAuthenticated)
      ensures r.Ok? ==> forall i :: 0 <= i < |r.value| ==>
                          r.value[i] in rows && r.value[i].candidateId == caller.value.subject
      ensures r.Ok? ==> forall i :: 0 <= i < |rows| && rows[i].candidateId == caller.value.subject ==>
                          rows[i] in r.value
      ensures r.Ok? ==> IsSubsequence(r.value, rows)
      ensures r.Ok? ==> forall iv | iv in rows ::
                          multiset(r.value)[iv] == if iv.candidateId == caller.value.subject then multiset(rows)[iv] else 0
    {
      if caller.None? then Err(NotAuthenticated)
      else Ok(WithCandidate(rows, caller.value.subject))
    }

    /** getInterviewByStreamId: needs no identity; null when nothing matches. */
    function GetInterviewByStreamId(streamCallId: string): (r: Option<Interview>)
      reads this
      ensures r.None? <==> forall i :: 0 <= i < |rows| ==> rows[i].streamCallId != streamCallId
      ensures r.Some? ==> exists k :: 0 <= k < |rows| && rows[k] == r.value
                                      && r.value.streamCallId == streamCallId
                                      && forall j :: 0 <= j < k ==> rows[j].streamCallId != streamCallId
    {
      ByStreamCallId(rows, streamCallId)
    }

    /** createInterview: an anonymous caller is refused and nothing is
        written; otherwise one record equal to the arguments is appended
        under a fresh id, which is returned. */
    method CreateInterview(caller: Option<Identity>, args: InterviewArgs) returns (r: Result<DocId, StoreError>)
      requires Valid()
      modifies this
      ensures Valid()
      ensures caller.None? ==> r == Err(NotAuthenticated) && rows == old(rows) && nextId == old(nextId)
      ensures caller.Some? ==> r == Ok(old(nextId)) && nextId == old(nextId) + 1
                               && rows == old(rows) + [FromArgs(old(nextId), args)]
    {
      if caller.None? {
        return Err(NotAuthenticated);
      }
      var id := nextId;
      rows := rows + [FromArgs(id, args)];
      nextId := nextId + 1;
      r := Ok(id);
    }

    /** updateInterviewStatus: no identity is consulted, so `caller` is
        ignored. Patching an id that is not in the table fails and writes
        nothing; otherwise exactly that record is patched. */
    method UpdateInterviewStatus(caller: Option<Identity>, interviewId: DocId, status: string, now: int)
      returns (r: Result<(), StoreError>)
      requires Valid()
      modifies this
      ensures Valid() && nextId == old(nextId)
      ensures r.Ok? <==> HasId(old(rows), interviewId)
      ensures r.Err? ==> r.error == NoSuchDocument && rows == old(rows)
      ensures rows == SetStatus(old(rows), interviewId, status, now)
    {
      if !HasId(rows, interviewId) {
        assert SetStatus(rows, interviewId, status, now) == rows;
        return Err(NoSuchDocument);
      }
      rows := SetStatus(rows, interviewId, status, now);
      r := Ok(());
    }
  }

  /** Patching keeps the table well keyed. */
  lemma SetStatusWellKeyed(rows: seq<Interview>, nextId: DocId, id: DocId, status: string, now: int)
    requires WellKeyed(rows, nextId)
    ensures WellKeyed(SetStatus(rows, id, status, now), nextId)
  {
  }

  /** In a well-keyed table the patch touches exactly one record, the one
      with that id; its status becomes the new one and the rest of it stays. */
  lemma {:induction false} SetStatusTouchesOne(rows: seq<Interview>, nextId: DocId, k: nat, status: string, now: int)
    requires WellKeyed(rows, nextId) && k < |rows|
    ensures var r := SetStatus(rows, rows[k].id, status, now);
            r[k].status == status && SameExceptStatus(rows[k], r[k])
            && forall i :: 0 <= i < |rows| && i != k ==> r[i] == rows[i]
  {
    var r := SetStatus(rows, rows[k].id, status, now);
    forall i | 0 <= i < |rows| && i != k
      ensures r[i] == rows[i]
    {
      if i < k { assert rows[i].id < rows[k].id; } else { assert rows[k].id < rows[i].id; }
    }
  }

  /** The end time is not idempotent: completing a second time overwrites
      the first completion's end time with the later clock value. */
  lemma CompletingTwiceOverwrites(rows: seq<Interview>, id: DocId, t1: int, t2: int, i: nat)
    requires i < |rows| && rows[i].id == id
    ensures SetStatus(SetStatus(rows, id, Completed, t1), id, Completed, t2)[i].endTime == Some(t2)
  {
  }

  /** Moving a completed interview to another status keeps its end time, so
      "has an end time" and "is completed" can disagree. */
  lemma LeavingCompletedKeepsEndTime(rows: seq<Interview>, id: DocId, status: string, t1: int, t2: int, i: nat)
    requires i < |rows| && rows[i].id == id && status != Completed
    ensures var r := SetStatus(SetStatus(rows, id, Completed, t1), id, status, t2);
            r[i].status == status && r[i].endTime == Some(t1)
  {
  }

  /** createInterview does not check the call id: a second interview with
      the same streamCallId is stored, and the lookup keeps answering with
      the earlier one. */
  lemma {:induction false} DuplicateStreamCallIdShadowed(rows: seq<Interview>, id: DocId, args: InterviewArgs)
    requires ByStreamCallId(rows, args.streamCallId).Some?
    ensures var r := rows + [FromArgs(id, args)];
            |r| == |rows| + 1
            && ByStreamCallId(r, args.streamCallId) == ByStreamCallId(rows, args.streamCallId)
  {
    var p := (iv: Interview) => iv.streamCallId == args.streamCallId;
    FirstIndexAppend(rows, [FromArgs(id, args)], p);
  }

  /** A freshly created interview is what the lookup by its call id finds
      when no earlier interview uses that call id. */
  lemma {:induction false} CreatedFoundByStreamCallId(rows: seq<Interview>, id: DocId, args: InterviewArgs)
    requires ByStreamCallId(rows, args.streamCallId).None?
    ensures ByStreamCallId(rows + [FromArgs(id, args)], args.streamCallId) == Some(FromArgs(id, args))
  {
    var r := rows + [FromArgs(id, args)];
    assert r[|rows|] == FromArgs(id, args);
    var p := (iv: Interview) => iv.streamCallId == args.streamCallId;
    assert forall j :: 0 <= j < |rows| ==> !p(r[j]);
    assert FirstIndex(r, p) == Some(|rows|);
  }
}
