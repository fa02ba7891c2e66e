/** `isTokenExpired(token)`: a local check of a JWT's `exp` claim against
    the clock. Decoding and the clock are parameters: `decoded` is what
    `jwtDecode` yields for the token and `now` is `Date.now()`. */
module TokenExpiry {
  import opened Wrappers
  import opened JsValues

  /** `jwtDecode`'s verdict: the `exp` claim in seconds (possibly missing),
      or a thrown decoding error. */
  datatype Decoded = Claims(exp: Option<int>) | Malformed

  datatype DecodeError = InvalidTokenError

  /** True when the claim lies strictly before `now` (milliseconds). */
  predicate ExpiredAt(exp: int, now: int) {
    exp * 1000 < now
  }

  /** A falsy token counts as expired; a malformed one throws; a token
      without `exp` compares `NaN < now` and so never counts as expired. */
  function IsTokenExpired(token: Option<string>, decoded: Decoded, now: int): (r: Result<bool, DecodeError>)
    ensures !Present(token) ==> r == Success(true)
    ensures Present(token) ==> (r.Failure? <==> decoded.Malformed?)
    ensures Present(token) && decoded.Claims? ==>
              r == Success(decoded.exp.Some? && ExpiredAt(decoded.exp.value, now))
  {
    if !Present(token) then Success(true)
    else match decoded
      case Malformed => Failure(InvalidTokenError)
      case Claims(None) => Success(false)
      case Claims(Some(exp)) => Success(ExpiredAt(exp, now))
  }

  /** At the instant `exp * 1000 == now` the token is still valid. */
  lemma BoundaryNotExpired(token: Option<string>, exp: int)
    requires Present(token)
    ensures IsTokenExpired(token, Claims(Some(exp)), exp * 1000) == Success(false)
  {
  }

  /** Once expired, expired at every later instant. */
  lemma ExpiryMonotoneInTime(token: Option<string>, d: Decoded, now: int, later: int)
    requires now <= later
    requires IsTokenExpired(token, d, now) == Success(true)
    ensures IsTokenExpired(token, d, later) == Success(true)
  {
  }

  /** A later `exp` never turns a valid token into an expired one. */
  lemma ExpiryMonotoneInExp(token: Option<string>, e: int, e': int, now: int)
    requires e <= e'
    requires IsTokenExpired(token, Claims(Some(e)), now) == Success(false)
    ensures IsTokenExpired(token, Claims(Some(e')), now) == Success(false)
  {
  }
}
