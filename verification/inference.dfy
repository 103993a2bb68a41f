/** The call to the hosted text-generation model with its retry loop
    (app.py:19-28). The network is a parameter: `upstream(payload, k)` is what
    the k-th attempt (counting from 0) yields, either a decoded JSON body or a
    failure that `requests` reports as a `RequestException` (connection
    errors, time-outs, HTTP error statuses from `raise_for_status`, and, from
    requests 2.27 on, bodies that do not decode as JSON). */
module Inference {
  import opened Json
  import opened Text

  datatype Attempt = Delivered(body: Value) | Failed

  /** What one call of the retry loop did: the value it returned, how many
      requests it sent, and the length of each pause it took (one
      `time.sleep(delay)` after every failed attempt). */
  datatype Trace = Trace(response: Value, attempts: nat, pauses: seq<nat>)

  /** The defaults of `query_huggingface`. */
  const Retries: nat := 3
  const Delay: nat := 5

  /** The body returned when every attempt failed. */
  function GiveUpBody(retries: nat): Value {
    Object(map["error" := Str("Failed after " + Decimal(retries) + " attempts.")])
  }

  /** Attempts `k` up to `retries - 1` of the loop, after `k` failures. */
  function RetryFrom(payload: Value, upstream: (Value, nat) -> Attempt, retries: nat, delay: nat, k: nat): (t: Trace)
    requires k <= retries
    ensures k <= |t.pauses| <= retries
    decreases retries - k
  {
    if k == retries then
      Trace(GiveUpBody(retries), retries, Pauses(retries, delay))
    else
      match upstream(payload, k)
      case Delivered(body) => Trace(body, k + 1, Pauses(k, delay))
      case Failed => RetryFrom(payload, upstream, retries, delay, k + 1)
  }

  /** `n` pauses of `delay` seconds each. */
  function Pauses(n: nat, delay: nat): (p: seq<nat>)
    ensures |p| == n && forall i :: 0 <= i < n ==> p[i] == delay
  {
    seq(n, _ => delay)
  }

  /** `query_huggingface(payload, retries, delay)`: the first delivered body
      among the first `retries` attempts, or the give-up body. The attempts
      before the one that delivered all failed, each followed by one pause;
      the call that gives up has paused after every attempt. */
  function Retry(payload: Value, upstream: (Value, nat) -> Attempt, retries: nat, delay: nat): (t: Trace)
    ensures |t.pauses| <= retries && forall i :: 0 <= i < |t.pauses| ==> t.pauses[i] == delay
    ensures forall k :: 0 <= k < |t.pauses| ==> upstream(payload, k).Failed?
    ensures |t.pauses| < retries ==>
              t.attempts == |t.pauses| + 1 && upstream(payload, |t.pauses|) == Delivered(t.response)
    ensures |t.pauses| == retries ==> t.attempts == retries && t.response == GiveUpBody(retries)
  {
    RetryFromFacts(payload, upstream, retries, delay, 0);
    RetryFrom(payload, upstream, retries, delay, 0)
  }

  /** The loop from attempt `k` on, after `k` failures, ends as `Retry` promises. */
  lemma {:induction false} RetryFromFacts(payload: Value, upstream: (Value, nat) -> Attempt, retries: nat, delay: nat, k: nat)
    requires k <= retries
    requires forall i :: 0 <= i < k ==> upstream(payload, i).Failed?
    ensures var t := RetryFrom(payload, upstream, retries, delay, k);
            && (forall i :: 0 <= i < |t.pauses| ==> t.pauses[i] == delay)
            && (forall i :: 0 <= i < |t.pauses| ==> upstream(payload, i).Failed?)
            && (|t.pauses| < retries ==>
                  t.attempts == |t.pauses| + 1 && upstream(payload, |t.pauses|) == Delivered(t.response))
            && (|t.pauses| == retries ==> t.attempts == retries && t.response == GiveUpBody(retries))
    decreases retries - k
  {
    if k < retries && upstream(payload, k).Failed? {
      RetryFromFacts(payload, upstream, retries, delay, k + 1);
    }
  }

  /** The handler's call: three attempts, five seconds apart. */
  function Query(payload: Value, upstream: (Value, nat) -> Attempt): Trace {
    Retry(payload, upstream, Retries, Delay)
  }

  // ---------------------------------------------------------------------------
  // Properties

  /** The loop returns the body of the first attempt that delivered one. */
  lemma FirstDeliveryWins(payload: Value, upstream: (Value, nat) -> Attempt, retries: nat, delay: nat, k: nat)
    requires k < retries && upstream(payload, k).Delivered?
    requires forall i :: 0 <= i < k ==> upstream(payload, i).Failed?
    ensures Retry(payload, upstream, retries, delay) == Trace(upstream(payload, k).body, k + 1, Pauses(k, delay))
  {
    var t := Retry(payload, upstream, retries, delay);
    assert |t.pauses| == k;
    assert t.pauses == Pauses(k, delay);
  }

  /** When every attempt fails the loop gives up after `retries` attempts and
      `retries` pauses. */
  lemma AllFailuresGiveUp(payload: Value, upstream: (Value, nat) -> Attempt, retries: nat, delay: nat)
    requires forall i :: 0 <= i < retries ==> upstream(payload, i).Failed?
    ensures Retry(payload, upstream, retries, delay) == Trace(GiveUpBody(retries), retries, Pauses(retries, delay))
  {
    var t := Retry(payload, upstream, retries, delay);
    assert |t.pauses| == retries;
    assert t.pauses == Pauses(retries, delay);
  }

  /** The loop never looks at an attempt after the one that delivered: two
      networks that agree on the attempts actually made give the same trace. */
  lemma LaterAttemptsUnseen(payload: Value, up1: (Value, nat) -> Attempt, up2: (Value, nat) -> Attempt,
                            retries: nat, delay: nat)
    requires forall i :: 0 <= i < Retry(payload, up1, retries, delay).attempts ==> up1(payload, i) == up2(payload, i)
    ensures Retry(payload, up1, retries, delay) == Retry(payload, up2, retries, delay)
  {
    LaterAttemptsUnseenFrom(payload, up1, up2, retries, delay, 0);
  }

  /** `LaterAttemptsUnseen` from attempt `k` on. */
  lemma {:induction false} LaterAttemptsUnseenFrom(payload: Value, up1: (Value, nat) -> Attempt, up2: (Value, nat) -> Attempt,
                                               retries: nat, delay: nat, k: nat)
    requires k <= retries
    requires forall i :: k <= i < retries && i < RetryFrom(payload, up1, retries, delay, k).attempts ==>
               up1(payload, i) == up2(payload, i)
    ensures RetryFrom(payload, up1, retries, delay, k) == RetryFrom(payload, up2, retries, delay, k)
    decreases retries - k
  {
    if k < retries {
      assert RetryFrom(payload, up1, retries, delay, k).attempts > k by {
        RetryFromCounts(payload, up1, retries, delay, k);
      }
      assert up1(payload, k) == up2(payload, k);
      if up1(payload, k).Failed? {
        LaterAttemptsUnseenFrom(payload, up1, up2, retries, delay, k + 1);
      }
    }
  }

  /** The loop from attempt `k` sends at least one more request when any remain. */
  lemma {:induction false} RetryFromCounts(payload: Value, upstream: (Value, nat) -> Attempt, retries: nat, delay: nat, k: nat)
    requires k < retries
    ensures k < RetryFrom(payload, upstream, retries, delay, k).attempts <= retries
    decreases retries - k
  {
    if upstream(payload, k).Failed? && k + 1 < retries {
      RetryFromCounts(payload, upstream, retries, delay, k + 1);
    }
  }

  /** Two failures then a success: three requests, two pauses of five seconds. */
  lemma FailFailSucceed(payload: Value, upstream: (Value, nat) -> Attempt, body: Value)
    requires upstream(payload, 0) == Failed && upstream(payload, 1) == Failed
    requires upstream(payload, 2) == Delivered(body)
    ensures Query(payload, upstream) == Trace(body, 3, [5, 5])
  {
    FirstDeliveryWins(payload, upstream, Retries, Delay, 2);
    assert Pauses(2, Delay) == [5, 5];
  }

  /** Three failures: the handler receives the give-up body after three
      requests and three pauses. */
  lemma ThreeFailures(payload: Value, upstream: (Value, nat) -> Attempt)
    requires forall i :: 0 <= i < 3 ==> upstream(payload, i) == Failed
    ensures Query(payload, upstream)
         == Trace(Object(map["error" := Str("Failed after 3 attempts.")]), 3, [5, 5, 5])
  {
    AllFailuresGiveUp(payload, upstream, Retries, Delay);
    assert Decimal(3) == "3";
    assert "Failed after " + "3" + " attempts." == "Failed after 3 attempts.";
    assert GiveUpBody(3) == Object(map["error" := Str("Failed after 3 attempts.")]);
    assert Pauses(3, Delay) == [5, 5, 5];
  }
}
