/**
 * The attempt loop of `send_to_telegram` (main.py:45-62). The HTTP request itself is not
 * modelled: `attempt(k)` is what the k-th `requests.post` came back with, and each
 * `time.sleep(delay)` is counted instead of performed.
 */
module Delivery {

  const DefaultRetries: int := 3
  const DefaultDelay: nat := 5

  /** The outcome of one `requests.post`: a response with its status code, or an exception. */
  datatype Attempt = Status(code: int) | Raised

  predicate Succeeded(a: Attempt) {
    a == Status(200)
  }

  /** The number of iterations of `range(retries)`. */
  function Budget(retries: int): nat {
    if retries > 0 then retries else 0
  }

  /**
   * Tries up to `retries` times and stops right after the first status 200. `tried` is the
   * number of requests made, `pauses` the number of sleeps and `waited` their total length.
   * `delay` is a `nat`: `time.sleep` raises on a negative delay.
   */
  method SendToTelegram(attempt: nat -> Attempt, retries: int, delay: nat)
    returns (sent: bool, tried: nat, pauses: nat, waited: nat)
    ensures tried <= Budget(retries)
    ensures sent <==> exists k :: 0 <= k < Budget(retries) && Succeeded(attempt(k))
    ensures sent ==> tried >= 1 && Succeeded(attempt(tried - 1))
    ensures !sent ==> tried == Budget(retries)
    ensures forall k :: 0 <= k < tried && !(sent && k == tried - 1) ==> !Succeeded(attempt(k))
    ensures pauses == if tried == 0 then 0 else tried - 1
    ensures pauses <= Budget(retries - 1) && waited == pauses * delay
  {
    tried, pauses, waited := 0, 0, 0;
    var a := 0;
    while a < retries
      invariant 0 <= a == tried <= Budget(retries)
      invariant pauses == if a < retries then a else Budget(retries - 1)
      invariant waited == pauses * delay
      invariant forall k :: 0 <= k < a ==> !Succeeded(attempt(k))
    {
      tried := tried + 1;
      if Succeeded(attempt(a)) {
        return true, tried, pauses, waited;
      }
      if a < retries - 1 {
        pauses, waited := pauses + 1, waited + delay;
      }
      a := a + 1;
    }
    return false, tried, pauses, waited;
  }
}
