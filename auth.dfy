/**
 * The pieces every protected handler shares: taking the token out of the
 * Authorization header, and the foreign services it consults (bcrypt and the
 * tokens package), which the model takes as parameters.
 */
module Auth {
  import opened Wrappers
  import opened Http
  import opened Models

  /** `len("Bearer ")`, the number of characters cut off the header. */
  const PrefixLength := 7

  /** What `tokens.VerifyToken` returns: the claims' email and an error text ("" when the token is good). */
  datatype Verdict = Verdict(email: string, msg: string)

  /**
   * The code the controllers call but that is not part of the model:
   * `hash(plain, salt)` is HashPassword (bcrypt, cost 14) drawing `salt`
   * (bcrypt salts every call, so two hashes of one password need not agree),
   * `verifyPassword(plain, hash)` is
   * VerifyPassword, `issueToken(email, issuedAt)` is tokens.TokenGenerator
   * called at time `issuedAt` (None on error; the claims carry issue and
   * expiry times, so two calls at different times need not agree) and
   * `verifyToken` is tokens.VerifyToken.
   */
  datatype Services = Services(
    hash: (string, string) -> string,
    verifyPassword: (string, string) -> bool,
    issueToken: (string, Timestamp) -> Option<string>,
    verifyToken: string -> Verdict)

  /** The three ways the header statement can end as written. */
  datatype HeaderSlice = Token(token: string) | Missing | OutOfRange

  /**
   * The header handling as the controllers write it: an empty header is
   * answered with an error, and any other header is sliced at offset 7.  A
   * header of one to six characters makes that slice panic; the router is
   * built with gin.New() and no recovery middleware, so no response is sent.
   */
  function StripBearerAsWritten(header: string): (r: HeaderSlice)
    ensures r.Missing? <==> header == ""
    ensures r.OutOfRange? <==> 0 < |header| < PrefixLength
    ensures r.Token? ==> |header| >= PrefixLength && header == header[..PrefixLength] + r.token
  {
    if header == "" then Missing
    else if |header| < PrefixLength then OutOfRange
    else Token(header[PrefixLength..])
  }

  /** A short header that crashes the handler instead of being answered. */
  lemma ShortHeaderPanics()
    ensures StripBearerAsWritten("Basic") == OutOfRange
  {
  }

  /**
   * The header handling as intended: a header too short to hold the
   * seven-character prefix is refused like an empty one; otherwise the token
   * is what follows the first seven characters, whatever they are.
   */
  function StripBearer(header: string): (r: Result<string>)
    ensures r.Err? <==> |header| < PrefixLength
    ensures r.Err? ==> r.failure == ServerError(InternalError)
    ensures r.Ok? ==> header == header[..PrefixLength] + r.value
  {
    if |header| < PrefixLength then Err(ServerError(InternalError))
    else Ok(header[PrefixLength..])
  }

  /** Wherever the code as written answers at all, the corrected header handling gives the same answer. */
  lemma StripBearerAgrees(header: string)
    requires StripBearerAsWritten(header) != OutOfRange
    ensures StripBearerAsWritten(header).Missing? <==> StripBearer(header).Err?
    ensures StripBearerAsWritten(header).Token? ==>
              StripBearer(header) == Ok(StripBearerAsWritten(header).token)
  {
  }

  /** A header built as "Bearer " + token gives back exactly that token. */
  lemma StripBearerRoundTrip(token: string)
    ensures StripBearer("Bearer " + token) == Ok(token)
  {
  }

  /** The first seven characters are never inspected: any prefix of that length does as well as "Bearer ". */
  lemma PrefixNeverChecked(prefix: string, token: string)
    requires |prefix| == PrefixLength
    ensures StripBearer(prefix + token) == StripBearer("Bearer " + token)
  {
  }
}
