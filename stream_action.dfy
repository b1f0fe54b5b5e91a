/** The Stream token provider (src/actions/stream.action.ts): the auth
    guard and the issued-at / expiry window handed to generateUserToken.
    The current user and the millisecond clock are parameters; the token
    itself, signed by the SDK, is not part of this model. */
module StreamToken {
  import opened Prelude

  /** The claims passed to `generateUserToken`. */
  datatype TokenRequest = TokenRequest(userId: string, iat: int, exp: int)

  const NotAuthenticated := "User is not authenticated"

  /** `Math.floor(ms / 1000)`; Dafny's division by a positive divisor
      already rounds toward negative infinity. */
  function FloorSeconds(ms: int): (s: int)
    ensures s * 1000 <= ms < (s + 1) * 1000
  {
    ms / 1000
  }

  /** streamTokenProvider up to the SDK call: no user throws; otherwise the
      claims are for that user, issued 60 seconds before now and expiring
      one hour after now. */
  function TokenClaims(userId: Option<string>, nowMs: int): (r: Result<TokenRequest, string>)
    ensures userId.None? <==> r == Err(NotAuthenticated)
    ensures r.Ok? ==> r.value.userId == userId.value
    ensures r.Ok? ==> r.value.iat == FloorSeconds(nowMs) - 60 && r.value.exp == FloorSeconds(nowMs) + 3600
  {
    if userId.None? then Err(NotAuthenticated)
    else
      var now := FloorSeconds(nowMs);
      Ok(TokenRequest(userId.value, now - 60, now + 3600))
  }

  /** The token lives 3660 seconds, and its window strictly contains the
      current instant: iat < nowMs / 1000 < exp as real numbers. */
  lemma {:induction false} TokenWindow(userId: string, nowMs: int)
    ensures var r := TokenClaims(Some(userId), nowMs);
            r.Ok? && r.value.exp - r.value.iat == 3660
            && r.value.iat * 1000 < nowMs && nowMs < r.value.exp * 1000
  {
    var s := FloorSeconds(nowMs);
    assert s * 1000 <= nowMs < (s + 1) * 1000;
    assert (s - 60) * 1000 == s * 1000 - 60000;
    assert (s + 3600) * 1000 == (s + 1) * 1000 + 3599000;
  }

  /** The window is at least 60 seconds behind and at most 3600 seconds
      ahead of the clock, whatever the clock reads. */
  lemma {:induction false} TokenWindowMargins(userId: string, nowMs: int)
    ensures var r := TokenClaims(Some(userId), nowMs);
            nowMs - r.value.iat * 1000 >= 60000 && nowMs - r.value.iat * 1000 < 61000
            && r.value.exp * 1000 - nowMs > 3599000 && r.value.exp * 1000 - nowMs <= 3600000
  {
    var s := FloorSeconds(nowMs);
    assert s * 1000 <= nowMs < (s + 1) * 1000;
    assert (s - 60) * 1000 == s * 1000 - 60000;
    assert (s + 3600) * 1000 == s * 1000 + 3600000;
  }
}
