/** The generator's persistent state and the three generation routines, as
    the source runs them: counted loops filling freshly allocated arrays,
    each step reading and overwriting the one state `b`. */
module Rng {
  import opened Int32
  import opened Lcg

  /** The sum `a` that the normal routine accumulates, taken over raw draws
      and added left to right as the inner loop does. The source's float sum
      only approximates this divided by 2^31, since each scaled draw and
      each partial sum is rounded. */
  function Sum(s: seq<int>): int
  {
    if s == [] then 0 else Sum(s[..|s| - 1]) + s[|s| - 1]
  }

  /** Adding one more element adds it to the sum. */
  lemma SumSnoc(s: seq<int>, x: int)
    ensures Sum(s + [x]) == Sum(s) + x
  {
    assert (s + [x])[..|s|] == s;
  }

  /** A batch of draws in [0, 2^31) sums to at most `|s| * (2^31 - 1)`:
      for `k > 0` the idealised sum of `k` scaled uniforms lies in [0, k). */
  lemma {:induction false} SumBounds(s: seq<int>)
    requires forall i :: 0 <= i < |s| ==> 0 <= s[i] < TWO31
    ensures 0 <= Sum(s) <= |s| * (TWO31 - 1)
  {
    if s != [] {
      SumBounds(s[..|s| - 1]);
    }
  }

  /** One more batch of `k` is `k` more steps. */
  lemma MulSucc(n: nat, k: nat)
    ensures n * k + k == (n + 1) * k
  {
  }

  /** Batch `i` of `n` batches of `k` draws ends within the `n * k` draws. */
  lemma BatchFits(i: nat, n: nat, k: nat)
    requires i < n
    ensures i * k + k <= n * k
  {
    var d := n - (i + 1);
    assert n * k == (i + 1) * k + d * k;
    assert (i + 1) * k == i * k + k;
  }

  /** The process-wide generator: the state `b` outlives every call. */
  class Generator {
    var b: Int32

    /** The state starts at the given seed, which the source takes from the
        wall clock. */
    constructor (seed: Int32)
      ensures b == seed
    {
      b := seed;
    }

    /** `n` draws in a fresh array: entry `i` is the state `i + 1` steps on,
        and the state left behind is the last draw, or unchanged for
        `n == 0`. */
    method Uniform(n: nat) returns (r: array<Int32>)
      modifies this
      ensures fresh(r)
      ensures r[..] == States(old(b), n)
      ensures b == Iterate(old(b), n)
      ensures n > 0 ==> b == r[n - 1]
      ensures n == 0 ==> b == old(b)
    {
      r := new Int32[n];
      for i := 0 to n
        invariant b == Iterate(old(b), i)
        invariant r[..i] == States(old(b), i)
      {
        var y := Wrap32(b * MULTIPLIER);
        if y < 0 {
          y := Wrap32(y + CORRECTION);
        }
        StepIsResidue(b);
        r[i] := y;
        b := y;
      }
    }
  }

  /** The state after `n` batches of `k` steps each. */
  function AfterBatches(b: Int32, n: nat, k: nat): Int32
  {
    if n == 0 then b else Iterate(AfterBatches(b, n - 1, k), k)
  }

  /** `n` batches of `k` steps are `n * k` steps. */
  lemma {:induction false} AfterBatchesIsIterate(b: Int32, n: nat, k: nat)
    ensures AfterBatches(b, n, k) == Iterate(b, n * k)
  {
    if n > 0 {
      var done := (n - 1) * k;
      MulSucc(n - 1, k);
      calc {
        AfterBatches(b, n, k);
        Iterate(AfterBatches(b, n - 1, k), k);
        { AfterBatchesIsIterate(b, n - 1, k); }
        Iterate(Iterate(b, done), k);
        { IterateAdd(b, done, k); }
        Iterate(b, done + k);
      }
    }
  }

  /** The sums of `n` consecutive batches of `k` draws: sum `i` is over the
      batch drawn from the state after `i` batches. */
  function BatchSums(b: Int32, n: nat, k: nat): (r: seq<int>)
    ensures |r| == n
    ensures forall i :: 0 <= i < n ==> r[i] == Sum(States(AfterBatches(b, i, k), k))
  {
    if n == 0 then [] else BatchSums(b, n - 1, k) + [Sum(States(AfterBatches(b, n - 1, k), k))]
  }

  /** Sum `i` of the batch sums covers exactly draws `i * k` to
      `i * k + k - 1` of the one stream of `n * k` draws. */
  lemma BatchSumIsWindow(b: Int32, n: nat, k: nat, i: nat)
    requires i < n
    ensures 0 <= i * k && i * k + k <= n * k
    ensures BatchSums(b, n, k)[i] == Sum(States(b, n * k)[i * k..i * k + k])
  {
    BatchFits(i, n, k);
    var start, total := i * k, n * k;
    calc {
      BatchSums(b, n, k)[i];
      Sum(States(AfterBatches(b, i, k), k));
      { AfterBatchesIsIterate(b, i, k); }
      Sum(States(Iterate(b, start), k));
      { StatesWindow(b, start, k, total); }
      Sum(States(b, total)[start..start + k]);
    }
  }

  /** `n` outputs, each from its own call drawing a batch of `k` uniforms:
      output `i` is the sum of its batch, the draws `i * k` to
      `i * k + k - 1` of the stream, and the state advances `n * k` steps.
      With `k == 0` every call draws nothing and the state is unchanged. */
  method Normal(g: Generator, n: nat, k: nat) returns (result: array<int>)
    modifies g
    ensures fresh(result)
    ensures result[..] == BatchSums(old(g.b), n, k)
    ensures g.b == Iterate(old(g.b), n * k)
  {
    ghost var b0 := g.b;
    result := new int[n];
    for i := 0 to n
      modifies g, result
      invariant g.b == AfterBatches(b0, i, k)
      invariant result[..i] == BatchSums(b0, i, k)
    {
      ghost var before := g.b;
      var uniforms := g.Uniform(k);
      ghost var batch := uniforms[..];
      assert batch == States(before, k);
      assert uniforms.Length == k;
      var a: int := 0;
      for j := 0 to k
        modifies {}
        invariant a == Sum(batch[..j])
      {
        assert batch[..j + 1] == batch[..j] + [uniforms[j]];
        SumSnoc(batch[..j], uniforms[j]);
        a := a + uniforms[j];
      }
      assert batch[..k] == batch;
      ghost var done := result[..i];
      result[i] := a;
      assert result[..i + 1] == done + [Sum(States(AfterBatches(b0, i, k), k))];
    }
    AfterBatchesIsIterate(b0, n, k);
  }

  /** `n` outputs from one batch of `n` uniforms: output `i` is the
      logarithm's argument, draw `i` alone, and the state advances `n`
      steps. */
  method Exponential(g: Generator, n: nat) returns (result: array<Int32>)
    modifies g
    ensures fresh(result)
    ensures result[..] == States(old(g.b), n)
    ensures g.b == Iterate(old(g.b), n)
  {
    result := new Int32[n];
    var uniforms := g.Uniform(n);
    for i := 0 to n
      modifies result
      invariant result[..i] == uniforms[..i]
    {
      var r := uniforms[i];
      result[i] := r;
    }
  }

  /** Because the state persists, two calls in a row produce exactly the
      draws, and leave exactly the state, of one call for both counts. */
  method UniformTwice(g: Generator, n: nat, m: nat) returns (first: array<Int32>, second: array<Int32>)
    modifies g
    ensures first[..] + second[..] == States(old(g.b), n + m)
    ensures g.b == Iterate(old(g.b), n + m)
  {
    ghost var b0 := g.b;
    first := g.Uniform(n);
    second := g.Uniform(m);
    StatesAppend(b0, n, m);
    IterateAdd(b0, n, m);
  }
}
