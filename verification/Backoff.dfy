/** Exponential backoff with a cap, as used by the retry queue and by both reconnecting clients. */
module Backoff {

  function Min(a: nat, b: nat): nat { if a <= b then a else b }

  function Pow2(n: nat): nat { if n == 0 then 1 else 2 * Pow2(n - 1) }

  /** One step: double the delay, capped at the maximum. */
  function CalculateBackoffDelay(currentDelay: nat, maxDelay: nat): nat {
    Min(currentDelay * 2, maxDelay)
  }

  /** The delay after n steps. */
  function Iterated(n: nat, initial: nat, max: nat): nat {
    if n == 0 then initial else CalculateBackoffDelay(Iterated(n - 1, initial, max), max)
  }

  lemma DoubleProduct(a: nat, n: nat)
    requires n > 0
    ensures a * Pow2(n) == 2 * (a * Pow2(n - 1))
  {
    var p := Pow2(n - 1);
    assert a * (2 * p) == 2 * (a * p);
  }

  /** Stepwise capping and one cap at the end agree. */
  lemma {:induction false} IteratedClosedForm(n: nat, initial: nat, max: nat)
    requires initial <= max
    ensures Iterated(n, initial, max) == Min(initial * Pow2(n), max)
  {
    if n > 0 {
      IteratedClosedForm(n - 1, initial, max);
      DoubleProduct(initial, n);
    }
  }

  lemma {:induction false} IteratedMonotone(m: nat, n: nat, initial: nat, max: nat)
    requires m <= n && initial <= max
    ensures initial <= Iterated(m, initial, max) <= Iterated(n, initial, max) <= max
  {
    if n > 0 {
      if m < n {
        IteratedMonotone(m, n - 1, initial, max);
      } else {
        IteratedMonotone(m - 1, n - 1, initial, max);
      }
    }
  }

  /** The reconnect delay of a client: reset by a connection, stepped by each scheduled retry. */
  class Reconnector {
    const reconnectDelayMs: nat
    const maxReconnectDelayMs: nat
    var currentReconnectDelayMs: nat
    // Retries scheduled since the last successful connection.
    ghost var retries: nat

    ghost predicate Valid()
      reads this
    {
      currentReconnectDelayMs == Iterated(retries, reconnectDelayMs, maxReconnectDelayMs)
    }

    constructor (reconnectDelayMs: nat, maxReconnectDelayMs: nat)
      ensures Valid() && retries == 0
      ensures this.reconnectDelayMs == reconnectDelayMs && this.maxReconnectDelayMs == maxReconnectDelayMs
    {
      this.reconnectDelayMs, this.maxReconnectDelayMs := reconnectDelayMs, maxReconnectDelayMs;
      currentReconnectDelayMs, retries := reconnectDelayMs, 0;
    }

    method OnConnect()
      modifies this
      ensures Valid() && retries == 0
    {
      currentReconnectDelayMs, retries := reconnectDelayMs, 0;
    }

    /** Returns the delay after which the timer set here will fire. */
    method ScheduleReconnect() returns (delayMs: nat)
      requires Valid()
      modifies this
      ensures Valid() && retries == old(retries) + 1
      ensures reconnectDelayMs <= maxReconnectDelayMs ==>
                delayMs == Min(reconnectDelayMs * Pow2(old(retries)), maxReconnectDelayMs)
    {
      if reconnectDelayMs <= maxReconnectDelayMs {
        IteratedClosedForm(retries, reconnectDelayMs, maxReconnectDelayMs);
      }
      delayMs := currentReconnectDelayMs;
      currentReconnectDelayMs := CalculateBackoffDelay(currentReconnectDelayMs, maxReconnectDelayMs);
      retries := retries + 1;
    }
  }
}
