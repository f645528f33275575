/** The multiplicative linear-congruential recurrence behind `custom_uniform`:
    one step, the stream of states it produces, and what is true of them. */
module Lcg {
  import opened Int32

  /** The multiplier of the recurrence. */
  const MULTIPLIER: int := 1220703125

  /** The literal `2 * 1073741824` evaluated in `int`: the product overflows,
      so what is added to a negative product is -2^31, not +2^31. */
  const CORRECTION: Int32 := Wrap32(2 * 1073741824)

  /** One step as the source computes it: multiply with 32-bit wrap-around,
      then add the correction when the wrapped product is negative. The
      result is both the raw draw and the next state. */
  function Step(b: Int32): (y: Int32)
    ensures 0 <= y < TWO31
  {
    var w := Wrap32(b * MULTIPLIER);
    if w < 0 then Wrap32(w + CORRECTION) else w
  }

  /** The recurrence in its mathematical form, independent of any word
      size: the non-negative residue of the product modulo 2^31. */
  function Next(b: Int32): Int32
  {
    (b * MULTIPLIER) % TWO31
  }

  /** The state after `k` steps from `b`. */
  function Iterate(b: Int32, k: nat): Int32
  {
    if k == 0 then b else Next(Iterate(b, k - 1))
  }

  /** The first `k` draws from state `b`: draw `i` is the state after
      `i + 1` steps. */
  function States(b: Int32, k: nat): (r: seq<Int32>)
    ensures |r| == k
    ensures forall i :: 0 <= i < k ==> r[i] == Iterate(b, i + 1)
  {
    if k == 0 then [] else States(b, k - 1) + [Iterate(b, k)]
  }

  /** The idealised scaled draw y / 2^31, which the float product
      `y * 4.656613e-10f` approximates; it lies in [0, 1). */
  function IdealUniform(y: Int32): (u: real)
    requires 0 <= y
    ensures 0.0 <= u < 1.0
  {
    y as real / TWO31 as real
  }

  /** Adding the overflowed literal to a negative 32-bit value, with
      wrap-around, is the same as adding 2^31 exactly. */
  lemma CorrectionAddsTwo31(w: Int32)
    requires w < 0
    ensures Wrap32(w + CORRECTION) == w + TWO31
  {
    assert CORRECTION == -TWO31;
    Wrap32Unique(w + CORRECTION, w + TWO31);
  }

  /** Wrap-then-correct is the non-negative residue of the exact product
      modulo 2^31, for every 32-bit state, negative seeds included. */
  lemma StepIsResidue(b: Int32)
    ensures Step(b) == Next(b)
  {
    var x := b * MULTIPLIER;
    var q, m := x / TWO32, x % TWO32;
    assert x == q * TWO32 + m;
    if m < TWO31 {
      ModTwo31(x, 2 * q, m);
    } else {
      var w := m - TWO32;
      assert Wrap32(x) == w;
      CorrectionAddsTwo31(w);
      ModTwo31(x, 2 * q + 1, m - TWO31);
    }
  }

  /** A step yields 0 exactly when the wrapped product is 0 or -2^31; the
      latter is the one negative product the correction sends to 0. */
  lemma StepZeroCases(b: Int32)
    ensures Step(b) == 0 <==> Wrap32(b * MULTIPLIER) in {0, -TWO31}
  {
    var w := Wrap32(b * MULTIPLIER);
    if w < 0 {
      CorrectionAddsTwo31(w);
    }
  }

  /** The multiplier is odd, so it is invertible modulo 2^31: a step yields 0
      exactly from the two 32-bit states divisible by 2^31. */
  lemma NextZeroIff(b: Int32)
    ensures Next(b) == 0 <==> b == 0 || b == -TWO31
  {
    var x := b * MULTIPLIER;
    if x % TWO31 == 0 {
      var q := x / TWO31;
      assert x == q * TWO31;
      // 1220703125 * 1984118717 == 1 + 1127840913 * 2^31
      assert MULTIPLIER * 1984118717 == 1 + 1127840913 * TWO31;
      calc {
        b;
        b * (MULTIPLIER * 1984118717) - b * 1127840913 * TWO31;
        x * 1984118717 - b * 1127840913 * TWO31;
        q * TWO31 * 1984118717 - b * 1127840913 * TWO31;
        (q * 1984118717 - b * 1127840913) * TWO31;
      }
      var c := q * 1984118717 - b * 1127840913;
      assert b == c * TWO31;
    }
  }

  /** Steps compose: running `n + m` steps is running `n` and then `m`. */
  lemma {:induction false} IterateAdd(b: Int32, n: nat, m: nat)
    ensures Iterate(b, n + m) == Iterate(Iterate(b, n), m)
  {
    if m > 0 {
      IterateAdd(b, n, m - 1);
    }
  }

  /** Batching invariance of the stream: the first `n + m` draws are the
      first `n` draws followed by the first `m` draws from the state reached
      after them. */
  lemma {:induction false} StatesAppend(b: Int32, n: nat, m: nat)
    ensures States(b, n + m) == States(b, n) + States(Iterate(b, n), m)
  {
    if m > 0 {
      StatesAppend(b, n, m - 1);
      IterateAdd(b, n, m);
      assert States(b, n + m) == States(b, n + m - 1) + [Iterate(b, n + m)];
      assert States(Iterate(b, n), m) == States(Iterate(b, n), m - 1) + [Iterate(Iterate(b, n), m)];
    }
  }

  /** A window of `k` draws starting at draw `s` is the batch of `k` draws
      from the state after `s` steps. */
  lemma StatesWindow(b: Int32, s: nat, k: nat, total: nat)
    requires s + k <= total
    ensures States(b, total)[s..s + k] == States(Iterate(b, s), k)
  {
    StatesAppend(b, s, k);
    StatesAppend(b, s + k, total - (s + k));
    assert States(b, total)[..s + k] == States(b, s + k);
  }

  /** Every draw lies in [0, 2^31). */
  lemma DrawsInRange(b: Int32, k: nat)
    ensures forall i :: 0 <= i < k ==> 0 <= States(b, k)[i] < TWO31
  {
  }

  /** From state 0 every later state is 0, since 0 * 1220703125 is 0 and
      is never negative. */
  lemma {:induction false} IterateFromZero(k: nat)
    ensures Iterate(0, k) == 0
  {
    if k > 0 {
      IterateFromZero(k - 1);
    }
  }

  /** State 0 is absorbing: every draw from it is 0. */
  lemma ZeroAbsorbing(k: nat)
    ensures forall i :: 0 <= i < k ==> States(0, k)[i] == 0
  {
    forall i | 0 <= i < k
      ensures States(0, k)[i] == 0
    {
      IterateFromZero(i + 1);
    }
  }

  /** Started from any state other than 0 and -2^31, no later state is 0
      or -2^31. */
  lemma {:induction false} IterateNeverZero(b: Int32, k: nat)
    requires b != 0 && b != -TWO31
    ensures Iterate(b, k) != 0 && Iterate(b, k) != -TWO31
  {
    if k > 0 {
      IterateNeverZero(b, k - 1);
      NextZeroIff(Iterate(b, k - 1));
    }
  }

  /** Started from any state other than 0 and -2^31, the stream never
      draws 0. */
  lemma NeverZero(b: Int32, k: nat)
    requires b != 0 && b != -TWO31
    ensures forall i :: 0 <= i < k ==> States(b, k)[i] != 0
  {
    forall i | 0 <= i < k
      ensures States(b, k)[i] != 0
    {
      IterateNeverZero(b, i + 1);
    }
  }

  /** The start of the stream from state 1: the first product needs no
      correction, and the first draws are those below. */
  lemma TraceFromOne()
    ensures Wrap32(1 * MULTIPLIER) == 1220703125
    ensures Step(1) == 1220703125
    ensures States(1, 4) == [1220703125, 839070905, 146721453, 187805105]
  {
  }
}
