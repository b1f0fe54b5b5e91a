/** The useGetCallById hook (src/hooks/useGetCallById.ts): the call found
    for an id and whether the lookup is still running. The SDK's call query
    is an oracle: its answer, or None when it throws, is a parameter. */
module CallById {
  import opened Prelude

  /** The hook's two state variables, for calls of any type. */
  datatype LoaderState<C> = LoaderState(call: Option<C>, isCallLoading: bool)

  /** `call` starts null and `isCallLoading` starts true. */
  function InitialLoader<C>(): LoaderState<C> {
    LoaderState(None, true)
  }

  /** One run of the effect: no client means no attempt; otherwise the
      first call found replaces the current one, an empty answer keeps it,
      a failure clears it, and loading ends. */
  function AfterGetCall<C>(s: LoaderState<C>, hasClient: bool, result: Option<seq<C>>): LoaderState<C> {
    if !hasClient then s
    else match result
      case None => LoaderState(None, false)
      case Some(calls) => LoaderState(if |calls| > 0 then Some(calls[0]) else s.call, false)
  }

  class CallLoader<C> {
    var call: Option<C>
    var isCallLoading: bool

    function Current(): LoaderState<C>
      reads this
    {
      LoaderState(call, isCallLoading)
    }

    constructor ()
      ensures Current() == InitialLoader()
    {
      call := None;
      isCallLoading := true;
    }

    /** The effect body with getCall's try/catch/finally. */
    method GetCall(hasClient: bool, result: Option<seq<C>>)
      modifies this
      ensures Current() == AfterGetCall(old(Current()), hasClient, result)
    {
      if !hasClient {
        return;
      }
      if result.Some? {
        var calls := result.value;
        if |calls| > 0 {
          call := Some(calls[0]);
        }
      } else {
        call := None;
      }
      isCallLoading := false;
    }
  }

  /** Without a client the state never changes, so the hook stays loading
      from the start. */
  lemma NoClientKeepsLoading<C>(s: LoaderState<C>, result: Option<seq<C>>)
    ensures AfterGetCall(s, false, result) == s
    ensures AfterGetCall(InitialLoader<C>(), false, result).isCallLoading
  {
  }

  /** Every attempt ends loading; a non-empty answer yields its first call,
      an empty one keeps the previous call, and an error clears it. */
  lemma AttemptOutcomes<C>(s: LoaderState<C>, result: Option<seq<C>>)
    ensures var t := AfterGetCall(s, true, result);
            !t.isCallLoading
            && (result.Some? && |result.value| > 0 ==> t.call == Some(result.value[0]))
            && (result.Some? && |result.value| == 0 ==> t.call == s.call)
            && (result.None? ==> t.call.None?)
  {
  }

  /** A later run with an empty answer keeps the call found by an earlier
      run (the effect re-runs when the id changes), so a stale call can
      stay on screen. */
  lemma StaleCallSurvivesEmptyAnswer<C>(first: C)
    ensures var t := AfterGetCall(AfterGetCall(InitialLoader<C>(), true, Some([first])), true, Some([]));
            t.call == Some(first) && !t.isCallLoading
  {
  }
}
