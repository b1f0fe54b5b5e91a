/** The useGetCalls hook (src/hooks/useGetCalls.tsx): load the user's calls
    once a video client and a user exist, and bucket them by their start and
    end times against the current clock. Times are milliseconds since the
    epoch; the call query itself (its filter and sort) is an oracle whose
    answer, or failure, is a parameter. */
module CallBuckets {
  import opened Prelude

  /** What the hook reads of a call: `state.startsAt` and `state.endedAt`. */
  datatype Call = Call(id: string, startsAt: Option<int>, endedAt: Option<int>)

  /** `(startsAt && new Date(startsAt) < now) || !!endedAt` */
  predicate Ended(c: Call, now: int) {
    (c.startsAt.Some? && c.startsAt.value < now) || c.endedAt.Some?
  }

  /** `startsAt && new Date(startsAt) > now` */
  predicate Upcoming(c: Call, now: int) {
    c.startsAt.Some? && c.startsAt.value > now
  }

  /** `startsAt && new Date(startsAt) < now && !endedAt` */
  predicate Live(c: Call, now: int) {
    c.startsAt.Some? && c.startsAt.value < now && c.endedAt.None?
  }

  /** `calls?.filter(...)`: no bucket before the calls are loaded; once they
      are, the calls passing the test, in load order. */
  function Bucket(calls: Option<seq<Call>>, p: Call -> bool): (r: Option<seq<Call>>)
    ensures r.None? <==> calls.None?
    ensures r.Some? ==> forall i :: 0 <= i < |r.value| ==> r.value[i] in calls.value && p(r.value[i])
    ensures r.Some? ==> forall i :: 0 <= i < |calls.value| && p(calls.value[i]) ==> calls.value[i] in r.value
    ensures r.Some? ==> IsSubsequence(r.value, calls.value)
    ensures r.Some? ==> forall c | c in calls.value ::
                          multiset(r.value)[c] == if p(c) then multiset(calls.value)[c] else 0
  {
    match calls
    case None => None
    case Some(cs) => Some(Filter(cs, p))
  }

  function EndedCalls(calls: Option<seq<Call>>, now: int): Option<seq<Call>> {
    Bucket(calls, (c: Call) => Ended(c, now))
  }

  function UpcomingCalls(calls: Option<seq<Call>>, now: int): Option<seq<Call>> {
    Bucket(calls, (c: Call) => Upcoming(c, now))
  }

  function LiveCalls(calls: Option<seq<Call>>, now: int): Option<seq<Call>> {
    Bucket(calls, (c: Call) => Live(c, now))
  }

  /** The hook's loading state. */
  class CallsLoader {
    var calls: Option<seq<Call>>
    var isLoading: bool

    constructor ()
      ensures calls.None? && !isLoading
    {
      calls := None;
      isLoading := false;
    }

    /** loadCalls: without a client or a user nothing happens; otherwise
        the query's calls are stored, or [] when it fails, and loading ends
        false either way. */
    method LoadCalls(hasClient: bool, hasUser: bool, result: Option<seq<Call>>)
      modifies this
      ensures !(hasClient && hasUser) ==> calls == old(calls) && isLoading == old(isLoading)
      ensures hasClient && hasUser ==> calls == Some(result.GetOr([])) && !isLoading
    {
      if !hasClient || !hasUser {
        return;
      }
      isLoading := true;
      if result.Some? {
        calls := Some(result.value);
      } else {
        calls := Some([]);
      }
      isLoading := false;
    }
  }

  /** A live call is also an ended call: the two buckets overlap. */
  lemma LiveIsEnded(c: Call, now: int)
    ensures Live(c, now) ==> Ended(c, now)
  {
  }

  /** Upcoming and live never share a call. */
  lemma UpcomingNotLive(c: Call, now: int)
    ensures !(Upcoming(c, now) && Live(c, now))
  {
  }

  /** A call starting exactly now, not yet ended, is in no bucket. */
  lemma StartingNowInNoBucket(c: Call, now: int)
    requires c.startsAt == Some(now) && c.endedAt.None?
    ensures !Ended(c, now) && !Upcoming(c, now) && !Live(c, now)
  {
  }

  /** A call scheduled in the future that already has an end time is both
      upcoming and ended. */
  lemma FutureEndedIsBoth(c: Call, now: int)
    requires c.startsAt.Some? && c.startsAt.value > now && c.endedAt.Some?
    ensures Upcoming(c, now) && Ended(c, now) && !Live(c, now)
  {
  }

  /** Every call with a start time other than now lands in the upcoming or
      the ended bucket; a call without a start time is ended exactly when
      it has an end time and is never upcoming or live. */
  lemma BucketsCover(c: Call, now: int)
    ensures c.startsAt.Some? && c.startsAt.value != now ==> Upcoming(c, now) || Ended(c, now)
    ensures c.startsAt.None? ==> (Ended(c, now) <==> c.endedAt.Some?) && !Upcoming(c, now) && !Live(c, now)
  {
  }

  /** On loaded calls the live bucket is contained in the ended bucket, and
      no call is both in the live and in the upcoming bucket. */
  lemma {:induction false} LiveBucketWithinEnded(cs: seq<Call>, now: int)
    ensures var live := LiveCalls(Some(cs), now).value;
            var ended := EndedCalls(Some(cs), now).value;
            var upcoming := UpcomingCalls(Some(cs), now).value;
            (forall i :: 0 <= i < |live| ==> live[i] in ended)
            && (forall i :: 0 <= i < |live| ==> live[i] !in upcoming)
  {
    var live := LiveCalls(Some(cs), now).value;
    var ended := EndedCalls(Some(cs), now).value;
    var upcoming := UpcomingCalls(Some(cs), now).value;
    forall i | 0 <= i < |live|
      ensures live[i] in ended && live[i] !in upcoming
    {
      var c := live[i];
      assert c in cs && Live(c, now);
      var k :| 0 <= k < |cs| && cs[k] == c;
      assert Ended(cs[k], now);
    }
  }

  /** A failed query leaves an empty list, so every bucket is empty rather
      than missing. */
  lemma FailedLoadGivesEmptyBuckets(now: int)
    ensures EndedCalls(Some([]), now) == Some([]) && UpcomingCalls(Some([]), now) == Some([])
            && LiveCalls(Some([]), now) == Some([])
  {
  }
}
