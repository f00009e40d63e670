/** The digest collaborator and what it means to apply it repeatedly.

    The host's `hash($algorithm, $data, true)` is a total function from an
    algorithm name and a byte string to the raw digest bytes; nothing else is
    assumed about it. */
module Digests {

  /** A byte, as produced by `chr(mt_rand(0, 255))`. */
  type byte = b: int | 0 <= b < 256

  /** PHP strings holding binary data (hash, salt, plaintext). */
  type Bytes = seq<byte>

  /** The name of a digest algorithm, as listed by `hash_algos()`. */
  type Algorithm = string

  /** `hash($algorithm, $data, true)`. */
  type DigestFn = (Algorithm, Bytes) -> Bytes

  /** `pow(2, n)` for a non-negative exponent. */
  function Pow2(n: nat): (r: nat)
    ensures r >= 1
  {
    if n == 0 then 1 else 2 * Pow2(n - 1)
  }

  lemma {:induction false} Pow2Monotone(lo: nat, hi: nat)
    requires lo <= hi
    ensures Pow2(lo) <= Pow2(hi)
  {
    if lo < hi {
      Pow2Monotone(lo, hi - 1);
    }
  }

  /** The digest applied `n` times in sequence, each application consuming
      the previous output, the first one consuming `x`. */
  function Iterate(d: DigestFn, alg: Algorithm, n: nat, x: Bytes): Bytes
  {
    if n == 0 then x else d(alg, Iterate(d, alg, n - 1, x))
  }

  /** Applying `n` times and then `m` more times is applying `n + m` times:
      a chain of digests can be resumed where it stopped. */
  lemma {:induction false} IterateAdd(d: DigestFn, alg: Algorithm, n: nat, m: nat, x: Bytes)
    ensures Iterate(d, alg, m, Iterate(d, alg, n, x)) == Iterate(d, alg, n + m, x)
  {
    if m > 0 {
      IterateAdd(d, alg, n, m - 1, x);
    }
  }

  /** Total number of digest applications done by the doubling rounds entered
      with exponents `lo`, `lo + 1`, ..., `hi - 1`. */
  function RoundsWork(lo: nat, hi: nat): nat
    decreases hi - lo
  {
    if hi <= lo then 0 else Pow2(lo) + RoundsWork(lo + 1, hi)
  }

  /** The rounds from exponent `lo` up to `hi` do `2^hi - 2^lo` applications;
      from exponent 0, `2^hi - 1`. */
  lemma {:induction false} RoundsWorkClosedForm(lo: nat, hi: nat)
    requires lo <= hi
    ensures RoundsWork(lo, hi) == Pow2(hi) - Pow2(lo)
    decreases hi - lo
  {
    if lo < hi {
      RoundsWorkClosedForm(lo + 1, hi);
    }
  }

  /** The inner counting-down loop shared by calibration and verification:
      the digest applied `n` times, each time to the previous output. */
  method ApplyDigest(d: DigestFn, alg: Algorithm, n: nat, x: Bytes) returns (y: Bytes)
    ensures y == Iterate(d, alg, n, x)
  {
    y := x;
    var i := n;
    while i > 0
      invariant 0 <= i <= n
      invariant y == Iterate(d, alg, n - i, x)
    {
      y := d(alg, y);
      i := i - 1;
    }
  }
}
