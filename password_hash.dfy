/** The `Password_Hash` class: a self-calibrating iterated-digest password
    hasher whose methods update its eight private fields in place.  Each
    method is proved to leave the fields (read together as `Snapshot()`) and
    its result exactly as the matching function of module HashState says;
    the properties of those functions are proved in calibration_facts.dfy,
    operation_facts.dfy and property_facts.dfy. */
module PasswordHash {
  import opened Digests
  import opened HashState
  import PropertyFacts

  class AdaptiveHasher {
    static const DefaultAlgorithm: Algorithm := "whirlpool"
    /** Two seconds, in microsecond ticks. */
    static const DefaultMinTime: int := 2_000_000
    static const DefaultMinIterationsLog2: int := 17

    /** The host's `hash()` and `hash_algos()`. */
    const Digest: DigestFn
    const Algos: set<Algorithm>

    var plaintext: Option<Bytes>
    var hash: Bytes
    var salt: Bytes
    var algorithm: Algorithm
    var time: nat
    var minTime: int
    var iterationsLog2: nat
    var minIterationsLog2: int

    function Snapshot(): State
      reads this
    {
      State(plaintext, hash, salt, algorithm, time, minTime, iterationsLog2, minIterationsLog2)
    }

    constructor (digest: DigestFn, algos: set<Algorithm>)
      ensures Digest == digest && Algos == algos
      ensures Snapshot() == Initial
    {
      Digest, Algos := digest, algos;
      plaintext, hash, salt, algorithm := None, [], [], "";
      time, minTime, iterationsLog2, minIterationsLog2 := 0, 0, 0, 0;
    }

    predicate NeedHashing()
      reads this
    {
      HashState.NeedHashing(Snapshot())
    }

    function Property(name: string): Value
      reads this
    {
      HashState.Property(Snapshot(), name)
    }

    method SetMinRequirements(newMinTime: int := DefaultMinTime,
                              newMinIterationsLog2: int := DefaultMinIterationsLog2)
      modifies this
      ensures Snapshot() == old(Snapshot()).(minTime := newMinTime, minIterationsLog2 := newMinIterationsLog2)
    {
      minTime := newMinTime;
      minIterationsLog2 := newMinIterationsLog2;
    }

    /** The random source and the clock come first so that, as in the class,
        the algorithm and both targets can be left to their defaults. */
    method HashPlaintext(p: Bytes, random: RandomSource, clock: Clock,
                         alg: Algorithm := DefaultAlgorithm,
                         newMinTime: int := DefaultMinTime,
                         newMinIterationsLog2: int := DefaultMinIterationsLog2) returns (r: Result<Record>)
      modifies this
      ensures Step(Snapshot(), r)
              == HashState.HashPlaintext(Digest, Algos, old(Snapshot()), p, alg,
                                         newMinTime, newMinIterationsLog2, random, clock)
    {
      var selected := SetAlgorithm(alg);
      if selected.Fail? {
        return Fail(selected.error);
      }
      ghost var selectedState := Snapshot();
      plaintext := Some(p);
      GenerateSalt(random);
      hash := salt + p;
      minTime := newMinTime;
      minIterationsLog2 := newMinIterationsLog2;
      time := 0;
      iterationsLog2 := 0;
      assert Snapshot() == Restart(Digest, selectedState.(plaintext := Some(p)), p, random)
                             .(minTime := newMinTime, minIterationsLog2 := newMinIterationsLog2);
      Calibrate(clock);
      r := Ok(Serialized(Snapshot()));
    }

    /** `unserialize_from_json` on an already decoded record. */
    method UnserializeFromJson(data: Record) returns (r: Result<()>)
      modifies this
      ensures Step(Snapshot(), r) == Unserialize(Algos, old(Snapshot()), data)
    {
      var alg := Read(data, "algorithm");
      if !alg.Text? {
        return Fail(UnsupportedAlgorithm);
      }
      var selected := SetAlgorithm(alg.text);
      if selected.Fail? {
        return Fail(selected.error);
      }
      plaintext := None;
      ghost var before := Snapshot();
      var copied := CopyObjectProperty(data, this, Many(SerializedNames));
      PropertyFacts.PlainNamesReadAlike(before, data, SerializedNames);
      r := if copied.Ok? then Ok(()) else Fail(copied.error);
    }

    method DoesMatchPlaintext(candidate: Bytes, elapsed: nat) returns (r: Result<bool>)
      modifies this
      ensures Step(Snapshot(), r) == Verify(Digest, old(Snapshot()), candidate, elapsed)
    {
      if plaintext == Some(candidate) {
        return Ok(true);
      }
      if hash == [] {
        return Fail(NoHashToCompare);
      }
      var h := ApplyDigest(Digest, algorithm, Pow2(iterationsLog2), salt + candidate);
      time := elapsed;
      if h == hash {
        plaintext := Some(candidate);
        return Ok(true);
      }
      return Ok(false);
    }

    /** `hash()`; a `None` argument stands for PHP's `null`. */
    method Hash(alg: Option<Algorithm>, newMinTime: Option<int>, newMinIterationsLog2: Option<int>,
                random: RandomSource, clock: Clock) returns (r: Result<bool>)
      modifies this
      ensures Step(Snapshot(), r)
              == HashState.Hash(Digest, Algos, old(Snapshot()), alg,
                                newMinTime, newMinIterationsLog2, random, clock)
    {
      if alg.Some? && alg.value != algorithm {
        if plaintext.None? {
          return Fail(PlaintextRequired);
        }
        var selected := SetAlgorithm(alg.value);
        if selected.Fail? {
          return Fail(selected.error);
        }
        GenerateSalt(random);
        hash := salt + plaintext.value;
        time := 0;
        iterationsLog2 := 0;
      }
      if newMinTime.Some? {
        minTime := newMinTime.value;
      }
      if newMinIterationsLog2.Some? {
        minIterationsLog2 := newMinIterationsLog2.value;
      }
      if !NeedHashing() {
        return Ok(false);
      }
      if hash == [] {
        return Fail(NoHashToContinue);
      }
      // The source's do-while: need_hashing() was just found true, so the
      // first round runs unconditionally either way.
      Calibrate(clock);
      return Ok(true);
    }

    /** One round of the calibration loop. */
    method Round(duration: Tick)
      modifies this
      ensures Snapshot() == HashState.Round(Digest, old(Snapshot()), duration)
    {
      var n := Pow2(iterationsLog2);
      iterationsLog2 := iterationsLog2 + 1;
      hash := ApplyDigest(Digest, algorithm, n, hash);
      time := time + duration;
    }

    /** The calibration loop of lines 50-58: rounds while `need_hashing()`
        holds, round `k` lasting `clock(k)`. */
    method Calibrate(clock: Clock)
      modifies this
      ensures Snapshot() == HashState.Calibrate(Digest, old(Snapshot()), clock, 0)
    {
      var k := 0;
      while NeedHashing()
        invariant HashState.Calibrate(Digest, Snapshot(), clock, k)
                  == HashState.Calibrate(Digest, old(Snapshot()), clock, 0)
        decreases Deficit(Snapshot())
      {
        Round(clock(k));
        k := k + 1;
      }
    }

    static method RandomBinaryString(length: nat, random: RandomSource) returns (s: Bytes)
      ensures |s| == length
      ensures forall k :: 0 <= k < length ==> s[k] == random(k)
    {
      s := [];
      var i := length;
      while i > 0
        invariant 0 <= i <= length
        invariant |s| == length - i
        invariant forall k :: 0 <= k < |s| ==> s[k] == random(k)
      {
        s := s + [random(length - i)];
        i := i - 1;
      }
    }

    /** `copy_object_property`, reading each value under the target name as
        the source does. */
    static method CopyObjectProperty(source: Record, target: AdaptiveHasher, names: PropertyNames)
      returns (r: Result<nat>)
      modifies target
      ensures Step(target.Snapshot(), r) == Copy(old(target.Snapshot()), source, Entries(names), ReadTargetName)
    {
      var es := Entries(names);
      var i := 0;
      while i < |es|
        invariant 0 <= i <= |es|
        invariant Copy(old(target.Snapshot()), source, es, ReadTargetName)
                  == Shifted(Copy(target.Snapshot(), source, es[i..], ReadTargetName), i)
      {
        var e := es[i];
        ghost var current := target.Snapshot();
        PropertyFacts.CopyFrom(current, source, es, i, ReadTargetName);
        var sourceName := SourceName(e);
        if !IsSet(source, sourceName) {
          assert CopyEntry(current, source, e, ReadTargetName) == Fail(MissingSourceProperty(sourceName));
          return Fail(MissingSourceProperty(sourceName));
        }
        if target.Property(e.target) == Null {
          assert CopyEntry(current, source, e, ReadTargetName) == Fail(MissingTargetProperty(e.target));
          return Fail(MissingTargetProperty(e.target));
        }
        var stored := target.SetProperty(e.target, Read(source, e.target));
        if !stored {
          assert CopyEntry(current, source, e, ReadTargetName) == Fail(MistypedProperty(e.target));
          return Fail(MistypedProperty(e.target));
        }
        assert CopyEntry(current, source, e, ReadTargetName) == Ok(target.Snapshot());
        PropertyFacts.ShiftedTwice(Copy(target.Snapshot(), source, es[i + 1..], ReadTargetName), i);
        i := i + 1;
      }
      return Ok(i);
    }

    /** `$this->{$name} = $v` for the declared fields. */
    method SetProperty(name: string, v: Value) returns (ok: bool)
      modifies this
      ensures match Assign(old(Snapshot()), name, v)
              case Some(s) => ok && Snapshot() == s
              case None => !ok && Snapshot() == old(Snapshot())
    {
      ok := true;
      if name == "plaintext" && v.Binary? {
        plaintext := Some(v.bytes);
      } else if name == "plaintext" && v.Null? {
        plaintext := None;
      } else if name == "hash" && v.Binary? {
        hash := v.bytes;
      } else if name == "salt" && v.Binary? {
        salt := v.bytes;
      } else if name == "algorithm" && v.Text? {
        algorithm := v.text;
      } else if name == "time" && v.Number? && v.number >= 0 {
        time := v.number;
      } else if name == "min_time" && v.Number? {
        minTime := v.number;
      } else if name == "iterations_log2" && v.Number? && v.number >= 0 {
        iterationsLog2 := v.number;
      } else if name == "min_iterations_log2" && v.Number? {
        minIterationsLog2 := v.number;
      } else {
        ok := false;
      }
    }

    method SetAlgorithm(alg: Algorithm) returns (r: Result<()>)
      modifies this
      ensures match HashState.SetAlgorithm(Algos, old(Snapshot()), alg)
              case Ok(s) => r == Ok(()) && Snapshot() == s
              case Fail(e) => r == Fail(e) && Snapshot() == old(Snapshot())
    {
      if alg !in Algos {
        return Fail(UnsupportedAlgorithm);
      }
      algorithm := alg;
      return Ok(());
    }

    /** A salt as long as the algorithm's digest of the empty string. */
    method GenerateSalt(random: RandomSource)
      modifies this
      ensures Snapshot() == old(Snapshot()).(salt := RandomBytes(|Digest(algorithm, [])|, random))
    {
      var s := RandomBinaryString(|Digest(algorithm, [])|, random);
      assert s == RandomBytes(|Digest(algorithm, [])|, random);
      salt := s;
    }
  }
}
