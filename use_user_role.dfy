/** The useUserRole hook (src/hooks/useUserRole.ts): the query argument for
    the current user's record and the three flags derived from the sign-in
    state and the query's answer. The query `getUserByClerkId` is not part
    of this model; its answer is a parameter. */
module UserRole {
  import opened Prelude
  import opened Users

  /** A reactive query's value: `undefined` while pending, `null` when the
      query found nothing, or the record. */
  datatype QueryState<T> = Pending | NotFound | Loaded(value: T)

  /** The clerkId passed to the query: the signed-in user's id once auth is
      loaded and the id is non-empty, otherwise "". `userId` is `user?.id`. */
  function QueryArg(isLoaded: bool, userId: Option<string>): (arg: string)
    ensures arg != "" <==> isLoaded && userId.Some? && userId.value != ""
    ensures arg != "" ==> arg == userId.value
  {
    if isLoaded && userId.Some? && userId.value != "" then userId.value else ""
  }

  /** `!isLoaded || (isLoaded && user && userData === undefined)`, read as
      a boolean. */
  predicate IsLoading(isLoaded: bool, hasUser: bool, userData: QueryState<User>) {
    !isLoaded || (isLoaded && hasUser && userData.Pending?)
  }

  /** `userData?.role === "interviewer"` */
  predicate IsInterviewer(userData: QueryState<User>) {
    userData.Loaded? && userData.value.role == Interviewer
  }

  /** `userData?.role === "candidate"` */
  predicate IsCandidate(userData: QueryState<User>) {
    userData.Loaded? && userData.value.role == Candidate
  }

  /** The two role flags are never both true, both are false without a
      record, and with a record exactly one of them holds. */
  lemma RoleFlagsExclusive(userData: QueryState<User>)
    ensures !(IsInterviewer(userData) && IsCandidate(userData))
    ensures !userData.Loaded? ==> !IsInterviewer(userData) && !IsCandidate(userData)
    ensures userData.Loaded? ==> IsInterviewer(userData) != IsCandidate(userData)
  {
  }

  /** Before auth has loaded the hook is always loading, whatever the query
      says. */
  lemma NotLoadedIsLoading(hasUser: bool, userData: QueryState<User>)
    ensures IsLoading(false, hasUser, userData)
  {
  }

  /** Once auth has loaded, the hook is loading exactly while a signed-in
      user's record is still pending; a signed-out visitor is never
      loading, and a null answer ends loading. */
  lemma LoadedLoadingIff(hasUser: bool, userData: QueryState<User>)
    ensures IsLoading(true, hasUser, userData) <==> hasUser && userData.Pending?
    ensures !IsLoading(true, false, userData)
    ensures !IsLoading(true, hasUser, NotFound)
  {
  }

  /** Not loading and not pending: the role flags are decided by the
      stored role alone. */
  lemma SettledFlagsFollowRole(hasUser: bool, u: User)
    ensures !IsLoading(true, hasUser, Loaded(u))
    ensures IsInterviewer(Loaded(u)) <==> u.role == Interviewer
    ensures IsCandidate(Loaded(u)) <==> u.role == Candidate
  {
  }
}
