/** Sending with retries and doubling pauses. */
module Backoff {
  import opened Wrappers

  function Pow2(n: nat): (r: nat)
    ensures r >= 1
  {
    if n == 0 then 1 else 2 * Pow2(n - 1)
  }

  /** Milliseconds slept after `retries` failed attempts, the first pause being `interval`. */
  function Slept(interval: nat, retries: nat): nat {
    interval * (Pow2(retries) - 1)
  }

  lemma SleptOneMore(interval: nat, retries: nat)
    ensures Slept(interval, retries) + interval * Pow2(retries) == Slept(interval, retries + 1)
  {
    var p := Pow2(retries);
    assert interval * (2 * p - 1) == interval * (p - 1) + interval * p;
  }

  class Backoff {
    var numRetries: nat
    var interval: nat
    const maxRetries: nat

    constructor (maxRetries: nat, interval: nat)
      ensures this.maxRetries == maxRetries && this.interval == interval && numRetries == 0
    {
      this.maxRetries, this.interval, numRetries := maxRetries, interval, 0;
    }

    /** How long to sleep before the next attempt; nothing when the retries are used up. */
    method DoBackoff() returns (pause: Option<nat>)
      modifies this
      ensures old(numRetries) == maxRetries ==>
        pause == None && numRetries == old(numRetries) && interval == old(interval)
      ensures old(numRetries) != maxRetries ==>
        pause == Some(old(interval)) && numRetries == old(numRetries) + 1 && interval == 2 * old(interval)
    {
      if numRetries == maxRetries {
        return None;
      }
      numRetries := numRetries + 1;
      pause := Some(interval);
      interval := interval * 2;
    }
  }

  /** One attempt to write to the socket: it succeeds, is refused for now, or breaks off. */
  datatype Attempt = Written | Again | Broken

  datatype Outcome = Sent | GaveUp | BrokeOff

  /** The retry loop. `attempt(k)` is what the socket does at the k-th write. It stops at the first
      write that is not refused, or after `maxRetries + 1` of them, having slept through the doubling
      pauses in between. */
  method Send(attempt: nat -> Attempt, maxRetries: nat, interval: nat)
    returns (outcome: Outcome, writes: nat, slept: nat)
    ensures 1 <= writes <= maxRetries + 1
    ensures forall k: nat | k < writes - 1 :: attempt(k) == Again
    ensures outcome == Sent <==> attempt(writes - 1) == Written
    ensures outcome == BrokeOff <==> attempt(writes - 1) == Broken
    ensures outcome == GaveUp ==> writes == maxRetries + 1
    ensures slept == interval * (Pow2(writes - 1) - 1)
  {
    var backoff := new Backoff(maxRetries, interval);
    writes, slept := 0, 0;
    while true
      invariant fresh(backoff) && backoff.maxRetries == maxRetries
      invariant writes == backoff.numRetries <= maxRetries
      invariant backoff.interval == interval * Pow2(writes)
      invariant slept == Slept(interval, writes)
      invariant forall k: nat | k < writes :: attempt(k) == Again
      decreases maxRetries - writes
    {
      writes := writes + 1;
      match attempt(writes - 1)
      case Written => return Sent, writes, slept;
      case Broken => return BrokeOff, writes, slept;
      case Again =>
        var pause := backoff.DoBackoff();
        if pause.None? {
          return GaveUp, writes, slept;
        }
        SleptOneMore(interval, writes - 1);
        slept := slept + pause.value;
    }
  }

  lemma {:induction false} SleptGrows(interval: nat, r: nat, n: nat)
    requires r <= n
    ensures Slept(interval, r) <= Slept(interval, n)
  {
    if r < n {
      SleptGrows(interval, r, n - 1);
      SleptOneMore(interval, n - 1);
    }
  }

  /** With three retries from 200 ms on, a send never sleeps more than 1400 ms in all. */
  method SendWithDefaults(attempt: nat -> Attempt) returns (outcome: Outcome, writes: nat, slept: nat)
    ensures 1 <= writes <= 4 && slept <= 1400
    ensures outcome == GaveUp ==> writes == 4 && slept == 1400
    ensures outcome == Sent <==> attempt(writes - 1) == Written
  {
    outcome, writes, slept := Send(attempt, 3, 200);
    SleptGrows(200, writes - 1, 3);
    assert Pow2(3) == 8;
  }
}
