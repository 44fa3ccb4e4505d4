/**
 Writing one chunk to one sink with retries (src/pipeline/router.rs, `write_to_sink`).

 A sink's behavior is an arbitrary function: call number `n` to sink `i` succeeds iff `outcome(i, n)`.
 */
module Retry {

  import opened Arith
  import opened Audio

  type SinkBehavior = (nat, nat) -> bool

  /** The calls made for one chunk, the first of which is call number `start` to sink `i`. */
  function Attempts(outcome: SinkBehavior, i: nat, start: nat, limit: nat): nat
    decreases limit
  {
    if outcome(i, start) || limit <= 1 then 1 else 1 + Attempts(outcome, i, start + 1, limit - 1)
  }

  /** The retry rule, without recursion: all calls but the last fail, and the last succeeds or is the limit's. */
  ghost predicate IsAttempts(outcome: SinkBehavior, i: nat, start: nat, limit: nat, a: nat)
  {
    && 1 <= a <= Max(1, limit)
    && (forall n :: start <= n < start + a - 1 ==> !outcome(i, n))
    && (outcome(i, start + a - 1) || a == Max(1, limit))
  }

  /** The rule has exactly one solution. */
  lemma {:induction false} AttemptsLaw(outcome: SinkBehavior, i: nat, start: nat, limit: nat, a: nat)
    ensures IsAttempts(outcome, i, start, limit, a) <==> a == Attempts(outcome, i, start, limit)
    decreases limit
  {
    if !outcome(i, start) && 1 < limit {
      if 1 <= a {
        AttemptsLaw(outcome, i, start + 1, limit - 1, a - 1);
      }
    } else if IsAttempts(outcome, i, start, limit, a) {
      assert 1 < a ==> !outcome(i, start);
    }
  }

  function Pow2(n: nat): nat
  {
    if n == 0 then 1 else 2 * Pow2(n - 1)
  }

  function Repeat<T>(x: T, n: nat): seq<T>
  {
    seq(n, (_: nat) => x)
  }

  lemma RepeatMore<T>(s: seq<T>, x: T, n: nat)
    ensures s + Repeat(x, n) + [x] == s + Repeat(x, n + 1)
    ensures s + Repeat(x, 0) == s
  {
  }

  /** The wait before the retry that follows `n` others, and the whole wait of `n` retries. */
  function Backoff(d: real, n: nat): real
  {
    d * Pow2(n) as real
  }

  function Waited(d: real, n: nat): real
  {
    d * (Pow2(n) - 1) as real
  }

  lemma FirstBackoff(d: real)
    ensures Backoff(d, 0) == d && Waited(d, 0) == 0.0
  {
  }

  lemma BackoffDoubles(d: real, n: nat)
    ensures Backoff(d, n + 1) == Backoff(d, n) * 2.0 && Waited(d, n + 1) == Waited(d, n) + Backoff(d, n)
  {
    var p := Pow2(n) as real;
    assert Pow2(n + 1) as real == 2.0 * p && (Pow2(n + 1) - 1) as real == (p - 1.0) + p;
    assert d * (2.0 * p) == d * p * 2.0;
    assert d * ((p - 1.0) + p) == d * (p - 1.0) + d * p;
  }

  lemma WaitedIs(d: real, n: nat)
    ensures Waited(d, n) == d * (Pow2(n) - 1) as real
  {
  }

  /** All the calls a sink gets for a list of chunks: every attempt for one chunk before the next. */
  function CallsFor(outcome: SinkBehavior, i: nat, limit: nat, chunks: seq<Chunk>): seq<Chunk>
  {
    if chunks == [] then []
    else
      var before := CallsFor(outcome, i, limit, chunks[..|chunks| - 1]);
      before + Repeat(chunks[|chunks| - 1], Attempts(outcome, i, |before|, limit))
  }

  lemma CallsForAppend(outcome: SinkBehavior, i: nat, limit: nat, chunks: seq<Chunk>, c: Chunk)
    ensures var before := CallsFor(outcome, i, limit, chunks);
            CallsFor(outcome, i, limit, chunks + [c]) == before + Repeat(c, Attempts(outcome, i, |before|, limit))
  {
    hide Attempts;
    assert (chunks + [c])[..|chunks|] == chunks;
  }

  /** A sink that never fails gets every chunk exactly once, in order. */
  lemma {:induction false} ReliableSinkGetsEachOnce(outcome: SinkBehavior, i: nat, limit: nat, chunks: seq<Chunk>)
    requires forall n: nat :: outcome(i, n)
    ensures CallsFor(outcome, i, limit, chunks) == chunks
  {
    if chunks != [] {
      var init, last := chunks[..|chunks| - 1], chunks[|chunks| - 1];
      ReliableSinkGetsEachOnce(outcome, i, limit, init);
      assert Attempts(outcome, i, |init|, limit) == 1;
      assert Repeat(last, 1) == [last];
    }
  }
}
