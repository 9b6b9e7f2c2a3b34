/** The retry policy of the shipping client: which HTTP statuses end the
    send loop, how many attempts one export makes, and the backoff schedule. */
module Retry {

  const StatusOK := 200
  const StatusBadRequest := 400
  const StatusUnauthorized := 401
  const StatusForbidden := 403
  const StatusNotFound := 404
  const StatusRequestEntityTooLarge := 413
  const StatusInternalServerError := 500

  /** Statuses after which the client stops sending: success and the
      client-side errors that a resend cannot fix. */
  const Terminal: set<int> :=
    {StatusOK, StatusBadRequest, StatusUnauthorized, StatusForbidden, StatusNotFound}

  /** Attempt budget of one export. */
  const SendRetries := 4

  /** One second, in nanoseconds (Go `time.Second`). */
  const Second := 1_000_000_000

  /** The first backoff; every later one doubles the previous. */
  const InitialBackOff := 2 * Second

  /** The retry classifier: a switch whose cases clear the `retry` flag. */
  function ShouldRetry(statusCode: int): (retry: bool)
    ensures retry <==> statusCode !in Terminal
  {
    match statusCode
    case 400 => false
    case 404 => false
    case 401 => false
    case 403 => false
    case 200 => false
    case _ => true
  }

  /** The number of attempts made when attempt `k` is about to be sent and
      every earlier one was retryable: the loop goes on until the first
      terminal status or until the budget is spent. */
  function AttemptsFrom(respond: nat -> int, k: nat): (n: nat)
    requires k < SendRetries
    ensures k < n <= SendRetries
    ensures forall j :: k <= j < n - 1 ==> ShouldRetry(respond(j))
    ensures n < SendRetries ==> !ShouldRetry(respond(n - 1))
    decreases SendRetries - k
  {
    if k == SendRetries - 1 || !ShouldRetry(respond(k)) then k + 1
    else AttemptsFrom(respond, k + 1)
  }

  /** The number of sends one export makes when the endpoint answers the
      k-th attempt with `respond(k)`. */
  function Attempts(respond: nat -> int): (n: nat)
    ensures 1 <= n <= SendRetries
    ensures forall j :: 0 <= j < n - 1 ==> ShouldRetry(respond(j))
    ensures n < SendRetries ==> !ShouldRetry(respond(n - 1))
  {
    AttemptsFrom(respond, 0)
  }

  /** The three properties above determine the attempt count: an attempt
      count is right exactly when it stops at the first terminal status. */
  lemma {:induction false} AttemptsUnique(respond: nat -> int, n: nat)
    requires 1 <= n <= SendRetries
    requires forall j :: 0 <= j < n - 1 ==> ShouldRetry(respond(j))
    requires n < SendRetries ==> !ShouldRetry(respond(n - 1))
    ensures n == Attempts(respond)
  {
  }

  /** An endpoint that always answers `c`: one attempt when `c` is terminal,
      the whole budget otherwise. */
  lemma {:induction false} AttemptsConstant(c: int)
    ensures Attempts(_ => c) == if ShouldRetry(c) then SendRetries else 1
  {
    var respond: nat -> int := _ => c;
    if ShouldRetry(c) {
      AttemptsUnique(respond, SendRetries);
    } else {
      AttemptsUnique(respond, 1);
    }
  }

  /** A terminal first answer is authoritative: nothing more is sent. */
  lemma {:induction false} TerminalFirstStops(respond: nat -> int)
    requires !ShouldRetry(respond(0))
    ensures Attempts(respond) == 1
  {
    AttemptsUnique(respond, 1);
  }

  function Pow2(k: nat): (p: nat)
    ensures p >= 1
  {
    if k == 0 then 1 else 2 * Pow2(k - 1)
  }

  /** The backoff in force after `k` sleeps: two seconds, doubled after
      every sleep. */
  function BackOff(k: nat): int
  {
    if k == 0 then InitialBackOff else 2 * BackOff(k - 1)
  }

  /** The sleeps taken before attempts 2, 3, ..., m + 1. */
  function BackoffSchedule(m: nat): (s: seq<int>)
    ensures |s| == m
  {
    if m == 0 then [] else BackoffSchedule(m - 1) + [BackOff(m - 1)]
  }

  /** The k-th backoff (counting from zero) lasts 2^(k+1) seconds. */
  lemma {:induction false} BackOffIsPowerOfTwo(k: nat)
    ensures BackOff(k) == Pow2(k + 1) * Second
  {
    if k > 0 {
      BackOffIsPowerOfTwo(k - 1);
    }
  }

  /** The k-th sleep (counting from zero) lasts 2^(k+1) seconds. */
  lemma {:induction false} BackoffScheduleAt(m: nat, k: nat)
    requires k < m
    ensures BackoffSchedule(m)[k] == Pow2(k + 1) * Second
  {
    if k < m - 1 {
      BackoffScheduleAt(m - 1, k);
    } else {
      BackOffIsPowerOfTwo(k);
    }
  }

  /** Each sleep is twice the one before it. */
  lemma {:induction false} BackoffDoubles(m: nat, k: nat)
    requires 0 < k < m
    ensures BackoffSchedule(m)[k] == 2 * BackoffSchedule(m)[k - 1]
  {
    BackoffScheduleAt(m, k);
    BackoffScheduleAt(m, k - 1);
  }

  /** Within the four-attempt budget the sleeps are 2s, 4s and 8s: the
      worst case spends fourteen seconds asleep. */
  lemma FullBackoffSchedule()
    ensures BackoffSchedule(SendRetries - 1) == [2 * Second, 4 * Second, 8 * Second]
  {
  }
}
