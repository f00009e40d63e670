/** What `hash_plaintext`, `hash()` and `does_match_plaintext` promise, and
    the round trip hash, serialise, restore, verify: as the code is written
    (verification does one application too many) and as intended. */
module OperationFacts {
  import opened Digests
  import opened HashState
  import CalibrationFacts
  import PropertyFacts

  // ---------------------------------------------------------------------
  // hash_plaintext

  /** An unsupported algorithm is refused before any field changes; a
      supported one always succeeds. */
  lemma HashPlaintextRefusesOnlyUnsupported(d: DigestFn, algos: set<Algorithm>, st: State, p: Bytes,
                                            alg: Algorithm, minTime: int, minIterationsLog2: int,
                                            random: RandomSource, clock: Clock)
    ensures var made := HashPlaintext(d, algos, st, p, alg, minTime, minIterationsLog2, random, clock);
            && (made.result.Ok? <==> alg in algos)
            && (alg !in algos ==> made == Step(st, Fail(UnsupportedAlgorithm)))
  {
  }

  /** After `hash_plaintext` both targets are met; the salt is the first
      draws of the random source, as long as the algorithm's digest; the hash
      is salt . plaintext digested `2^k - 1` times for the final exponent `k`;
      `time` is the sum of the `k` round durations; the plaintext is known;
      and the returned record is the serialised state. */
  lemma HashPlaintextCalibrates(d: DigestFn, algos: set<Algorithm>, st: State, p: Bytes,
                                alg: Algorithm, minTime: int, minIterationsLog2: int,
                                random: RandomSource, clock: Clock)
    requires alg in algos
    ensures var made := HashPlaintext(d, algos, st, p, alg, minTime, minIterationsLog2, random, clock);
            var c := made.state;
            && !NeedHashing(c)
            && c.plaintext == Some(p) && c.algorithm == alg
            && c.minTime == minTime && c.minIterationsLog2 == minIterationsLog2
            && |c.salt| == |d(alg, [])|
            && (forall i :: 0 <= i < |c.salt| ==> c.salt[i] == random(i))
            && c.hash == Iterate(d, alg, Pow2(c.iterationsLog2) - 1, c.salt + p)
            && c.time == ClockSum(clock, 0, c.iterationsLog2)
            && made.result == Ok(Serialized(c))
            && (c.iterationsLog2 == 0 <==> minTime <= 0 && minIterationsLog2 <= 0)
  {
    var start := Restart(d, st.(algorithm := alg, plaintext := Some(p)), p, random)
                   .(minTime := minTime, minIterationsLog2 := minIterationsLog2);
    CalibrationFacts.CalibrateMeetsTargets(d, start, clock, 0);
    CalibrationFacts.CalibrateCounts(d, start, clock, 0);
    CalibrationFacts.CalibrateKeepsChain(d, start, clock, 0, start.hash);
  }

  /** Time target 0 and iteration target 3: calibration stops at exponent 3,
      that is after 1 + 2 + 4 = 7 digest applications. */
  lemma HashPlaintextThreeRounds(d: DigestFn, algos: set<Algorithm>, st: State, p: Bytes,
                                 alg: Algorithm, random: RandomSource, clock: Clock)
    requires alg in algos
    ensures var c := HashPlaintext(d, algos, st, p, alg, 0, 3, random, clock).state;
            c.iterationsLog2 == 3 && c.hash == Iterate(d, alg, 7, c.salt + p)
  {
    var start := Restart(d, st.(algorithm := alg, plaintext := Some(p)), p, random)
                   .(minTime := 0, minIterationsLog2 := 3);
    CalibrationFacts.CalibrateWhenTimeIsMet(d, start, clock, 0);
    HashPlaintextCalibrates(d, algos, st, p, alg, 0, 3, random, clock);
    assert Pow2(3) == 8;
  }

  // ---------------------------------------------------------------------
  // hash()

  /** Asked for the algorithm already in use, or for none, `hash()` only
      applies the non-null targets before deciding. */
  lemma PreparedWithoutSwitch(d: DigestFn, algos: set<Algorithm>, st: State, alg: Option<Algorithm>,
                              minTime: Option<int>, minIterationsLog2: Option<int>, random: RandomSource)
    requires alg.None? || alg.value == st.algorithm
    ensures var s := Prepared(d, algos, st, alg, minTime, minIterationsLog2, random);
            && s.Ok?
            && s.value.plaintext == st.plaintext && s.value.hash == st.hash && s.value.salt == st.salt
            && s.value.algorithm == st.algorithm && s.value.time == st.time
            && s.value.iterationsLog2 == st.iterationsLog2
            && s.value.minTime == (if minTime.Some? then minTime.value else st.minTime)
            && s.value.minIterationsLog2
               == (if minIterationsLog2.Some? then minIterationsLog2.value else st.minIterationsLog2)
  {
  }

  /** When the targets, once applied, are already met and no other algorithm
      is asked for, `hash()` returns false and the state is the old one with
      the non-null targets written -- even when there is no hash at all. */
  lemma HashSatisfiedIsNoop(d: DigestFn, algos: set<Algorithm>, st: State, alg: Option<Algorithm>,
                            minTime: Option<int>, minIterationsLog2: Option<int>,
                            random: RandomSource, clock: Clock)
    requires alg.None? || alg.value == st.algorithm
    requires !NeedHashing(WithTargets(st, minTime, minIterationsLog2))
    ensures Hash(d, algos, st, alg, minTime, minIterationsLog2, random, clock)
            == Step(WithTargets(st, minTime, minIterationsLog2), Ok(false))
  {
  }

  /** Calling `hash()` again on a calibrated state with the same or lower
      targets does no work. */
  lemma SecondHashIsNoop(d: DigestFn, algos: set<Algorithm>, st: State,
                         minTime: Option<int>, minIterationsLog2: Option<int>,
                         random: RandomSource, clock: Clock)
    requires !NeedHashing(st)
    requires minTime.Some? ==> minTime.value <= st.minTime
    requires minIterationsLog2.Some? ==> minIterationsLog2.value <= st.minIterationsLog2
    ensures Hash(d, algos, st, None, minTime, minIterationsLog2, random, clock)
            == Step(WithTargets(st, minTime, minIterationsLog2), Ok(false))
  {
    HashSatisfiedIsNoop(d, algos, st, None, minTime, minIterationsLog2, random, clock);
  }

  /** `hash()` returns true exactly when the prepared state misses a target
      and has a hash; it then ran at least one round, meets both targets it
      was prepared with (plaintext, salt, algorithm and targets are those of
      the prepared state), applied the digest `2^r + ... + 2^(R-1)` more
      times and added the round durations to `time`. */
  lemma HashRunsRounds(d: DigestFn, algos: set<Algorithm>, st: State, alg: Option<Algorithm>,
                       minTime: Option<int>, minIterationsLog2: Option<int>,
                       random: RandomSource, clock: Clock)
    ensures var s := Prepared(d, algos, st, alg, minTime, minIterationsLog2, random);
            var h := Hash(d, algos, st, alg, minTime, minIterationsLog2, random, clock);
            && (h.result == Ok(true) <==> s.Ok? && NeedHashing(s.value) && s.value.hash != [])
            && (h.result == Ok(true) ==>
                  && !NeedHashing(h.state)
                  && h.state.(hash := s.value.hash, time := s.value.time,
                              iterationsLog2 := s.value.iterationsLog2) == s.value
                  && s.value.iterationsLog2 < h.state.iterationsLog2
                  && h.state.hash
                     == Iterate(d, s.value.algorithm, RoundsWork(s.value.iterationsLog2, h.state.iterationsLog2),
                                s.value.hash)
                  && h.state.time
                     == s.value.time + ClockSum(clock, 0, h.state.iterationsLog2 - s.value.iterationsLog2))
  {
    var s := Prepared(d, algos, st, alg, minTime, minIterationsLog2, random);
    if s.Ok? && NeedHashing(s.value) && s.value.hash != [] {
      CalibrationFacts.CalibrateMeetsTargets(d, s.value, clock, 0);
      CalibrationFacts.CalibrateCounts(d, s.value, clock, 0);
    }
  }

  /** Whatever algorithm is asked for, `hash()` returns false exactly when the
      prepared state (switch done, targets written) already meets its targets,
      and then leaves that prepared state; every call that returns leaves a
      state meeting both targets. */
  lemma HashOutcomeMeetsTargets(d: DigestFn, algos: set<Algorithm>, st: State, alg: Option<Algorithm>,
                                minTime: Option<int>, minIterationsLog2: Option<int>,
                                random: RandomSource, clock: Clock)
    ensures var s := Prepared(d, algos, st, alg, minTime, minIterationsLog2, random);
            var h := Hash(d, algos, st, alg, minTime, minIterationsLog2, random, clock);
            && (h.result == Ok(false) <==> s.Ok? && !NeedHashing(s.value))
            && (h.result == Ok(false) ==> h.state == s.value)
            && (h.result.Ok? ==> !NeedHashing(h.state))
  {
    var s := Prepared(d, algos, st, alg, minTime, minIterationsLog2, random);
    if s.Ok? && NeedHashing(s.value) && s.value.hash != [] {
      CalibrationFacts.CalibrateMeetsTargets(d, s.value, clock, 0);
    }
  }

  /** The "without hash" error comes only after the targets were applied and
      found unmet, and the targets stay overwritten. */
  lemma HashGuardOrder(d: DigestFn, algos: set<Algorithm>, st: State, alg: Option<Algorithm>,
                       minTime: Option<int>, minIterationsLog2: Option<int>,
                       random: RandomSource, clock: Clock)
    ensures var s := Prepared(d, algos, st, alg, minTime, minIterationsLog2, random);
            var h := Hash(d, algos, st, alg, minTime, minIterationsLog2, random, clock);
            && (h.result == Fail(NoHashToContinue) <==> s.Ok? && NeedHashing(s.value) && s.value.hash == [])
            && (h.result == Fail(NoHashToContinue) ==> h.state == s.value)
  {
  }

  /** A switch to another algorithm fails, changing nothing, without a known
      plaintext (checked first) or for an unsupported algorithm. */
  lemma HashSwitchRefused(d: DigestFn, algos: set<Algorithm>, st: State, alg: Algorithm,
                          minTime: Option<int>, minIterationsLog2: Option<int>,
                          random: RandomSource, clock: Clock)
    requires alg != st.algorithm
    ensures st.plaintext.None?
            ==> Hash(d, algos, st, Some(alg), minTime, minIterationsLog2, random, clock)
                == Step(st, Fail(PlaintextRequired))
    ensures st.plaintext.Some? && alg !in algos
            ==> Hash(d, algos, st, Some(alg), minTime, minIterationsLog2, random, clock)
                == Step(st, Fail(UnsupportedAlgorithm))
  {
  }

  /** A successful switch restarts the chain: new algorithm, a salt of the
      new digest's length drawn from the random source, hash = salt .
      plaintext, time and exponent 0, then the non-null targets; whatever `hash()` then returns, the
      stored hash is salt . plaintext digested `2^k - 1` times. */
  lemma HashSwitchRestarts(d: DigestFn, algos: set<Algorithm>, st: State, alg: Algorithm, p: Bytes,
                           minTime: Option<int>, minIterationsLog2: Option<int>,
                           random: RandomSource, clock: Clock)
    requires alg != st.algorithm && alg in algos && st.plaintext == Some(p)
    ensures var s := Prepared(d, algos, st, Some(alg), minTime, minIterationsLog2, random);
            && s.Ok?
            && s.value.algorithm == alg && s.value.plaintext == Some(p)
            && |s.value.salt| == |d(alg, [])|
            && (forall i :: 0 <= i < |s.value.salt| ==> s.value.salt[i] == random(i))
            && s.value.hash == s.value.salt + p
            && s.value.time == 0 && s.value.iterationsLog2 == 0
            && s.value.minTime == (if minTime.Some? then minTime.value else st.minTime)
            && s.value.minIterationsLog2
               == (if minIterationsLog2.Some? then minIterationsLog2.value else st.minIterationsLog2)
    ensures var s := Prepared(d, algos, st, Some(alg), minTime, minIterationsLog2, random);
            var h := Hash(d, algos, st, Some(alg), minTime, minIterationsLog2, random, clock);
            && h.state.algorithm == alg && h.state.salt == s.value.salt
            && h.state.hash == Iterate(d, alg, Pow2(h.state.iterationsLog2) - 1, s.value.salt + p)
  {
    var s := Prepared(d, algos, st, Some(alg), minTime, minIterationsLog2, random).value;
    assert s.hash == Iterate(d, alg, Pow2(s.iterationsLog2) - 1, s.salt + p);
    CalibrationFacts.CalibrateCounts(d, s, clock, 0);
    CalibrationFacts.CalibrateKeepsChain(d, s, clock, 0, s.salt + p);
  }

  /** Without an algorithm switch, `hash()` resumes the chain: a hash that is
      a seed digested `2^r - 1` times becomes that seed digested `2^R - 1`
      times, whatever the outcome. */
  lemma HashResumesChain(d: DigestFn, algos: set<Algorithm>, st: State, alg: Option<Algorithm>,
                         minTime: Option<int>, minIterationsLog2: Option<int>,
                         random: RandomSource, clock: Clock, seed: Bytes)
    requires alg.None? || alg.value == st.algorithm
    requires st.hash == Iterate(d, st.algorithm, Pow2(st.iterationsLog2) - 1, seed)
    ensures var h := Hash(d, algos, st, alg, minTime, minIterationsLog2, random, clock);
            h.state.hash == Iterate(d, st.algorithm, Pow2(h.state.iterationsLog2) - 1, seed)
  {
    var s := WithTargets(st, minTime, minIterationsLog2);
    CalibrationFacts.CalibrateKeepsChain(d, s, clock, 0, seed);
  }

  // ---------------------------------------------------------------------
  // does_match_plaintext

  /** Verification never changes hash, salt, algorithm, exponent or targets;
      it succeeds at once on the known plaintext; it fails without a hash;
      otherwise it answers whether salt . candidate digested
      `2^iterations_log2` times is the hash, overwrites `time` with the
      measured duration, and learns the plaintext only on a match. */
  lemma VerifyOutcome(d: DigestFn, st: State, candidate: Bytes, elapsed: nat)
    ensures var v := Verify(d, st, candidate, elapsed);
            && v.state.hash == st.hash && v.state.salt == st.salt && v.state.algorithm == st.algorithm
            && v.state.iterationsLog2 == st.iterationsLog2
            && v.state.minTime == st.minTime && v.state.minIterationsLog2 == st.minIterationsLog2
            && (st.plaintext == Some(candidate) ==> v == Step(st, Ok(true)))
            && (st.plaintext != Some(candidate) && st.hash == [] ==> v == Step(st, Fail(NoHashToCompare)))
            && (st.plaintext != Some(candidate) && st.hash != [] ==>
                  && v.result
                     == Ok(Iterate(d, st.algorithm, Pow2(st.iterationsLog2), st.salt + candidate) == st.hash)
                  && v.state.time == elapsed
                  && v.state.plaintext == (if v.result.value then Some(candidate) else st.plaintext))
  {
  }

  /** As written, verifying the right plaintext against a hash produced by
      calibration (salt . plaintext digested `2^k - 1` times) succeeds only
      when that hash is a fixed point of the digest. */
  lemma VerifyChainAsWritten(d: DigestFn, st: State, p: Bytes, elapsed: nat)
    requires st.plaintext != Some(p) && st.hash != []
    requires st.hash == Iterate(d, st.algorithm, Pow2(st.iterationsLog2) - 1, st.salt + p)
    ensures Verify(d, st, p, elapsed).result == Ok(d(st.algorithm, st.hash) == st.hash)
  {
    IterateAdd(d, st.algorithm, Pow2(st.iterationsLog2) - 1, 1, st.salt + p);
  }

  /** With the intended work count, the right plaintext always matches. */
  lemma VerifyChainIntended(d: DigestFn, st: State, p: Bytes, elapsed: nat)
    requires st.plaintext != Some(p) && st.hash != []
    requires st.hash == Iterate(d, st.algorithm, Pow2(st.iterationsLog2) - 1, st.salt + p)
    ensures VerifyIntended(d, st, p, elapsed) == Step(st.(time := elapsed, plaintext := Some(p)), Ok(true))
  {
  }

  // ---------------------------------------------------------------------
  // The round trip

  /** Hash a plaintext, serialise, restore into any object, verify the same
      plaintext: as written, the answer is whether the stored hash is a
      fixed point of the digest. */
  lemma RoundTripAsWritten(d: DigestFn, algos: set<Algorithm>, st: State, p: Bytes, alg: Algorithm,
                           minTime: int, minIterationsLog2: int, random: RandomSource, clock: Clock,
                           other: State, elapsed: nat)
    requires alg in algos
    ensures var made := HashPlaintext(d, algos, st, p, alg, minTime, minIterationsLog2, random, clock);
            var h := made.state.hash;
            var restored := Unserialize(algos, other, made.result.value);
            && restored.result == Ok(())
            && Verify(d, restored.state, p, elapsed).result
               == if h == [] then Fail(NoHashToCompare) else Ok(d(alg, h) == h)
  {
    var made := HashPlaintext(d, algos, st, p, alg, minTime, minIterationsLog2, random, clock);
    HashPlaintextCalibrates(d, algos, st, p, alg, minTime, minIterationsLog2, random, clock);
    PropertyFacts.UnserializeSerialized(algos, other, made.state);
    var restored := Unserialize(algos, other, made.result.value);
    if made.state.hash != [] {
      VerifyChainAsWritten(d, restored.state, p, elapsed);
    }
  }

  /** The intended round trip: the same sequence with the intended work count
      accepts the plaintext whenever there is a hash to compare with. */
  lemma RoundTripIntended(d: DigestFn, algos: set<Algorithm>, st: State, p: Bytes, alg: Algorithm,
                          minTime: int, minIterationsLog2: int, random: RandomSource, clock: Clock,
                          other: State, elapsed: nat)
    requires alg in algos
    ensures var made := HashPlaintext(d, algos, st, p, alg, minTime, minIterationsLog2, random, clock);
            var h := made.state.hash;
            var restored := Unserialize(algos, other, made.result.value);
            && restored.result == Ok(())
            && VerifyIntended(d, restored.state, p, elapsed).result
               == if h == [] then Fail(NoHashToCompare) else Ok(true)
  {
    var made := HashPlaintext(d, algos, st, p, alg, minTime, minIterationsLog2, random, clock);
    HashPlaintextCalibrates(d, algos, st, p, alg, minTime, minIterationsLog2, random, clock);
    PropertyFacts.UnserializeSerialized(algos, other, made.state);
    var restored := Unserialize(algos, other, made.result.value);
    if made.state.hash != [] {
      VerifyChainIntended(d, restored.state, p, elapsed);
    }
  }

  /** A digest that appends a zero byte: it has no fixed point. */
  function AppendZero(alg: Algorithm, x: Bytes): (r: Bytes)
    ensures |r| == |x| + 1
  {
    x + [0]
  }

  lemma {:induction false} AppendZeroLength(alg: Algorithm, n: nat, x: Bytes)
    ensures |Iterate(AppendZero, alg, n, x)| == |x| + n
  {
    if n > 0 {
      AppendZeroLength(alg, n - 1, x);
    }
  }

  /** The round trip as written fails for every plaintext, algorithm, target
      and clock once the digest is `x -> x . 0x00`: the plaintext that was
      just hashed is rejected after restoring. */
  lemma RoundTripFailsAsWritten(algos: set<Algorithm>, st: State, p: Bytes, alg: Algorithm,
                                minTime: int, minIterationsLog2: int, random: RandomSource, clock: Clock,
                                other: State, elapsed: nat)
    requires alg in algos
    ensures var made := HashPlaintext(AppendZero, algos, st, p, alg, minTime, minIterationsLog2, random, clock);
            var restored := Unserialize(algos, other, made.result.value);
            Verify(AppendZero, restored.state, p, elapsed).result == Ok(false)
  {
    var made := HashPlaintext(AppendZero, algos, st, p, alg, minTime, minIterationsLog2, random, clock);
    HashPlaintextCalibrates(AppendZero, algos, st, p, alg, minTime, minIterationsLog2, random, clock);
    RoundTripAsWritten(AppendZero, algos, st, p, alg, minTime, minIterationsLog2, random, clock, other, elapsed);
    var c := made.state;
    AppendZeroLength(alg, Pow2(c.iterationsLog2) - 1, c.salt + p);
    assert |c.salt| == 1;
    assert c.hash != [];
    assert |AppendZero(alg, c.hash)| != |c.hash|;
  }
}
