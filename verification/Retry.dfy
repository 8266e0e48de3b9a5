/** The x-retry-count header, as both consumers of the agent read it. */
module Retry {

  /** What becomes of a publish: the broker takes the message, or the publish raises; a publish that raises may have
      reached the broker all the same. */
  datatype Publish = Sent | Refused | SentButRaised

  const RETRY_HEADER := "x-retry-count"
  const MAX_RETRY_ATTEMPTS: nat := 2

  /** A header value as int() sees it. */
  datatype HeaderValue = IntLike(n: int) | NotInt(text: string)

  type Headers = map<string, HeaderValue>

  function CountIn(headers: Headers): nat {
    if RETRY_HEADER !in headers then 0
    else
      match headers[RETRY_HEADER]
      case IntLike(n) => if n < 0 then 0 else n
      case NotInt(_) => MAX_RETRY_ATTEMPTS
  }

  /** A missing header counts as no attempt, a number as that many but not fewer than none, and anything else as all. */
  lemma CountsAre(headers: Headers)
    ensures RETRY_HEADER !in headers ==> CountIn(headers) == 0
    ensures forall n :: RETRY_HEADER in headers && headers[RETRY_HEADER] == IntLike(n) ==>
              CountIn(headers) == (if n > 0 then n else 0)
    ensures RETRY_HEADER in headers && headers[RETRY_HEADER].NotInt? ==> CountIn(headers) == 2
  {
  }

  /** Attempts still to come, the present one included, when every publish succeeds. */
  function AttemptsLeft(headers: Headers): nat {
    if CountIn(headers) < MAX_RETRY_ATTEMPTS then MAX_RETRY_ATTEMPTS - CountIn(headers) + 1 else 1
  }
}
