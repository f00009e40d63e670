/** The exponential-doubling calibration loop: it stops exactly when both
    targets are met, and its work, its time and its final exponent are
    counted exactly. */
module CalibrationFacts {
  import opened Digests
  import opened HashState

  /** `need_hashing()` is false exactly when both targets are met, that is
      when nothing is left of the distance to them; while it is true, every
      round brings the state strictly closer, whatever the round lasted. */
  lemma NeedHashingMeansDeficit(d: DigestFn, st: State, duration: Tick)
    ensures !NeedHashing(st) <==> st.minIterationsLog2 <= st.iterationsLog2 && st.minTime <= st.time
    ensures NeedHashing(st) <==> Deficit(st) > 0
    ensures NeedHashing(st) ==> Deficit(Round(d, st, duration)) < Deficit(st)
  {
  }

  /** The loop ends with `need_hashing()` false: both targets are met. */
  lemma {:induction false} CalibrateMeetsTargets(d: DigestFn, st: State, clock: Clock, k: nat)
    ensures !NeedHashing(Calibrate(d, st, clock, k))
    decreases Deficit(st)
  {
    if NeedHashing(st) {
      CalibrateMeetsTargets(d, Round(d, st, clock(k)), clock, k + 1);
    }
  }

  /** Entering with exponent `r` and leaving with `R`, calibration ran the
      rounds `r`, ..., `R - 1`: it applied the digest `2^r + ... + 2^(R-1)`
      times to the hash it found, added exactly the rounds' durations to
      `time`, ran no round at all exactly when no target was missing, and
      changed no other field. */
  lemma {:induction false} CalibrateCounts(d: DigestFn, st: State, clock: Clock, k: nat)
    ensures var c := Calibrate(d, st, clock, k);
            && c.plaintext == st.plaintext && c.salt == st.salt && c.algorithm == st.algorithm
            && c.minTime == st.minTime && c.minIterationsLog2 == st.minIterationsLog2
            && st.iterationsLog2 <= c.iterationsLog2
            && (c.iterationsLog2 == st.iterationsLog2 <==> !NeedHashing(st))
            && c.hash == Iterate(d, st.algorithm, RoundsWork(st.iterationsLog2, c.iterationsLog2), st.hash)
            && c.time == st.time + ClockSum(clock, k, k + c.iterationsLog2 - st.iterationsLog2)
    decreases Deficit(st)
  {
    if NeedHashing(st) {
      var s1 := Round(d, st, clock(k));
      CalibrateCounts(d, s1, clock, k + 1);
      var c := Calibrate(d, s1, clock, k + 1);
      var r := st.iterationsLog2;
      IterateAdd(d, st.algorithm, Pow2(r), RoundsWork(r + 1, c.iterationsLog2), st.hash);
      assert RoundsWork(r, c.iterationsLog2) == Pow2(r) + RoundsWork(r + 1, c.iterationsLog2);
      assert ClockSum(clock, k, k + c.iterationsLog2 - r)
             == clock(k) + ClockSum(clock, k + 1, k + 1 + c.iterationsLog2 - (r + 1));
    }
  }

  /** The chain invariant: a hash that is the digest applied `2^r - 1` times
      to a seed stays, after calibration to exponent `R`, the digest applied
      `2^R - 1` times to the same seed.  From salt . plaintext at exponent 0
      this is the stored hash after every run. */
  lemma CalibrateKeepsChain(d: DigestFn, st: State, clock: Clock, k: nat, seed: Bytes)
    requires st.hash == Iterate(d, st.algorithm, Pow2(st.iterationsLog2) - 1, seed)
    ensures var c := Calibrate(d, st, clock, k);
            c.hash == Iterate(d, st.algorithm, Pow2(c.iterationsLog2) - 1, seed)
  {
    CalibrateCounts(d, st, clock, k);
    var c := Calibrate(d, st, clock, k);
    RoundsWorkClosedForm(st.iterationsLog2, c.iterationsLog2);
    Pow2Monotone(st.iterationsLog2, c.iterationsLog2);
    IterateAdd(d, st.algorithm, Pow2(st.iterationsLog2) - 1,
               RoundsWork(st.iterationsLog2, c.iterationsLog2), seed);
  }

  /** When the time target is already met, calibration stops at the least
      exponent that meets the iteration target. */
  lemma {:induction false} CalibrateWhenTimeIsMet(d: DigestFn, st: State, clock: Clock, k: nat)
    requires st.minTime <= st.time
    ensures Calibrate(d, st, clock, k).iterationsLog2
            == if st.iterationsLog2 < st.minIterationsLog2 then st.minIterationsLog2 else st.iterationsLog2
    decreases Deficit(st)
  {
    if NeedHashing(st) {
      CalibrateWhenTimeIsMet(d, Round(d, st, clock(k)), clock, k + 1);
    }
  }
}
