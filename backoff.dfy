/**
 * The bounded retry loop with a doubling pause shared by the postcode lookup
 * and the shop count. Attempt `k` of the loop turns the k-th answer of the
 * remote service into a `Step`: a decisive value, or a request to try again.
 * A retry that is not the last attempt pauses for the current delay and then
 * doubles it; a retry on the last attempt gives up.
 */
module Backoff {
  datatype Step<T> = Done(value: T) | Retry

  /** What a retry loop returns, the pauses it made (in order) and how many requests it sent. */
  datatype Trace<T> = Trace(value: T, sleeps: seq<int>, requests: nat)

  function Pow2(k: nat): (r: nat)
    ensures r >= 1
  {
    if k == 0 then 1 else 2 * Pow2(k - 1)
  }

  /** The first `n` pauses of a backoff that starts at `initial` and doubles. */
  function Delays(initial: int, n: nat): (r: seq<int>)
    ensures |r| == n
  {
    if n == 0 then [] else Delays(initial, n - 1) + [initial * Pow2(n - 1)]
  }

  /** Pause k of the schedule is `initial * 2^k`. */
  lemma {:induction false} DelaysAt(initial: int, n: nat)
    ensures forall k :: 0 <= k < n ==> Delays(initial, n)[k] == initial * Pow2(k)
  {
    if n > 0 {
      DelaysAt(initial, n - 1);
      assert forall k :: 0 <= k < n - 1 ==> Delays(initial, n)[k] == Delays(initial, n - 1)[k];
    }
  }

  /**
   * The loop from attempt `attempt` on, with `delay` the pause that the next
   * retry would take; `giveUp` is the value returned when the attempts run out.
   */
  function From<T>(step: nat -> Step<T>, attempt: nat, maxRetries: nat, delay: int, giveUp: T): Trace<T>
    decreases maxRetries - attempt
  {
    if attempt >= maxRetries then Trace(giveUp, [], 0)
    else match step(attempt)
      case Done(v) => Trace(v, [], 1)
      case Retry =>
        if attempt < maxRetries - 1 then
          var rest := From(step, attempt + 1, maxRetries, delay * 2, giveUp);
          Trace(rest.value, [delay] + rest.sleeps, rest.requests + 1)
        else Trace(giveUp, [], 1)
  }

  /** The whole loop: attempts 0 up to `maxRetries - 1`, first pause `initialDelay`. */
  function Retrying<T>(step: nat -> Step<T>, maxRetries: nat, initialDelay: int, giveUp: T): Trace<T> {
    From(step, 0, maxRetries, initialDelay, giveUp)
  }

  lemma DelaysCons(initial: int, n: nat)
    ensures [initial] + Delays(initial * 2, n) == Delays(initial, n + 1)
  {
    var a := [initial] + Delays(initial * 2, n);
    var b := Delays(initial, n + 1);
    DelaysAt(initial * 2, n);
    DelaysAt(initial, n + 1);
    forall k | 0 <= k < n + 1 ensures a[k] == b[k] {
      if k > 0 {
        assert a[k] == initial * 2 * Pow2(k - 1);
        assert Pow2(k) == 2 * Pow2(k - 1);
        assert initial * 2 * Pow2(k - 1) == initial * (2 * Pow2(k - 1));
      }
    }
  }

  /**
   * The loop sends at most one request per attempt left, sends one exactly
   * when an attempt is left, and pauses once between consecutive requests.
   */
  lemma {:induction false} FromCounts<T>(step: nat -> Step<T>, attempt: nat, maxRetries: nat, delay: int, giveUp: T)
    ensures var r := From(step, attempt, maxRetries, delay, giveUp);
            && (attempt < maxRetries <==> r.requests >= 1)
            && (r.requests >= 1 ==> attempt + r.requests <= maxRetries && |r.sleeps| == r.requests - 1)
            && (r.requests == 0 ==> r.sleeps == [] && r.value == giveUp)
    decreases maxRetries - attempt
  {
    if attempt < maxRetries && step(attempt).Retry? && attempt < maxRetries - 1 {
      FromCounts(step, attempt + 1, maxRetries, delay * 2, giveUp);
    }
  }

  /** The pauses follow the doubling schedule that starts at `delay`. */
  lemma {:induction false} FromSleeps<T>(step: nat -> Step<T>, attempt: nat, maxRetries: nat, delay: int, giveUp: T)
    ensures var r := From(step, attempt, maxRetries, delay, giveUp);
            r.sleeps == Delays(delay, |r.sleeps|)
    decreases maxRetries - attempt
  {
    if attempt < maxRetries && step(attempt).Retry? && attempt < maxRetries - 1 {
      var rest := From(step, attempt + 1, maxRetries, delay * 2, giveUp);
      FromSleeps(step, attempt + 1, maxRetries, delay * 2, giveUp);
      DelaysCons(delay, |rest.sleeps|);
    }
  }

  /**
   * Every request followed by a pause was answered `Retry`, and a value other
   * than `giveUp` is the answer to the last request sent.
   */
  lemma {:induction false} FromAnswers<T>(step: nat -> Step<T>, attempt: nat, maxRetries: nat, delay: int, giveUp: T)
    ensures var r := From(step, attempt, maxRetries, delay, giveUp);
            && (forall j :: attempt <= j < attempt + |r.sleeps| ==> step(j).Retry?)
            && (r.value != giveUp ==> r.requests >= 1 && step(attempt + r.requests - 1) == Done(r.value))
    decreases maxRetries - attempt
  {
    if attempt < maxRetries && step(attempt).Retry? && attempt < maxRetries - 1 {
      FromAnswers(step, attempt + 1, maxRetries, delay * 2, giveUp);
      FromCounts(step, attempt + 1, maxRetries, delay * 2, giveUp);
    }
  }

  /** One attempt of the loop: a decisive answer ends it, a retry pauses and goes on or, on the last attempt, gives up. */
  lemma FromStep<T>(step: nat -> Step<T>, attempt: nat, maxRetries: nat, delay: int, giveUp: T)
    requires attempt < maxRetries
    ensures step(attempt).Done? ==> From(step, attempt, maxRetries, delay, giveUp) == Trace(step(attempt).value, [], 1)
    ensures step(attempt).Retry? && attempt == maxRetries - 1 ==> From(step, attempt, maxRetries, delay, giveUp) == Trace(giveUp, [], 1)
    ensures step(attempt).Retry? && attempt < maxRetries - 1 ==>
              var rest := From(step, attempt + 1, maxRetries, delay * 2, giveUp);
              From(step, attempt, maxRetries, delay, giveUp) == Trace(rest.value, [delay] + rest.sleeps, rest.requests + 1)
  {
  }

  /**
   * If the answers before attempt `k` all ask for a retry and attempt `k`
   * is decisive, the loop returns that value after `k` doubling pauses and
   * `k + 1` requests.
   */
  lemma {:induction false} FirstDecisive<T>(step: nat -> Step<T>, attempt: nat, k: nat, maxRetries: nat, delay: int, giveUp: T)
    requires attempt <= k < maxRetries
    requires forall j :: attempt <= j < k ==> step(j).Retry?
    requires step(k).Done?
    ensures From(step, attempt, maxRetries, delay, giveUp) == Trace(step(k).value, Delays(delay, k - attempt), k - attempt + 1)
    decreases k - attempt
  {
    if attempt < k {
      FirstDecisive(step, attempt + 1, k, maxRetries, delay * 2, giveUp);
      DelaysCons(delay, k - attempt - 1);
    }
  }

  /**
   * If every answer asks for a retry, the loop sends `maxRetries` requests,
   * pauses between consecutive ones and gives up.
   */
  lemma {:induction false} AllRetry<T>(step: nat -> Step<T>, attempt: nat, maxRetries: nat, delay: int, giveUp: T)
    requires attempt < maxRetries
    requires forall j :: attempt <= j < maxRetries ==> step(j).Retry?
    ensures From(step, attempt, maxRetries, delay, giveUp) == Trace(giveUp, Delays(delay, maxRetries - 1 - attempt), maxRetries - attempt)
    decreases maxRetries - attempt
  {
    if attempt < maxRetries - 1 {
      AllRetry(step, attempt + 1, maxRetries, delay * 2, giveUp);
      DelaysCons(delay, maxRetries - 2 - attempt);
    }
  }
}
