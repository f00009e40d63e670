/** The hashing state of a `Password_Hash` object as a value, and each of its
    operations as a function from the old state (and the oracles the operation
    consults) to the new state and the operation's result.  The class in
    password_hash.dfy is proved to do exactly what these functions say. */
module HashState {
  import opened Digests

  datatype Option<T> = None | Some(value: T)

  /** The exceptions the class throws. */
  datatype Error =
    | UnsupportedAlgorithm           // line 222: algorithm not offered by the host
    | PlaintextRequired              // line 128: switch without a known plaintext
    | NoHashToContinue               // line 153: calibration needed but no hash
    | NoHashToCompare                // line 91: verification without a hash
    | MissingSourceProperty(name: string)  // line 205
    | MissingTargetProperty(name: string)  // line 209
    | MistypedProperty(name: string)       // a value the typed field cannot hold

  datatype Result<T> = Ok(value: T) | Fail(error: Error)

  /** The state an operation leaves behind together with what it returned or
      threw.  An exception does not undo the assignments made before it. */
  datatype Step<T> = Step(state: State, result: Result<T>)

  /** A measured duration in microseconds (`microtime` resolution).  Every
      round of digest applications takes at least one tick. */
  type Tick = t: nat | 1 <= t witness 1

  /** `clock(k)`: how long round `k` of one calibration run took. */
  type Clock = nat -> Tick

  /** `random(k)`: the `k`-th value `mt_rand(0, 255)` returns during a call. */
  type RandomSource = nat -> byte

  /** The eight private fields.  `time` and `minTime` are in ticks. */
  datatype State = State(
    plaintext: Option<Bytes>,
    hash: Bytes,
    salt: Bytes,
    algorithm: Algorithm,
    time: nat,
    minTime: int,
    iterationsLog2: nat,
    minIterationsLog2: int)

  /** The field initialisers of a new object. */
  const Initial: State := State(None, [], [], "", 0, 0, 0, 0)

  // ---------------------------------------------------------------------
  // Calibration

  /** `need_hashing()`: a calibration target is not met yet. */
  predicate NeedHashing(st: State)
  {
    st.iterationsLog2 < st.minIterationsLog2 || st.time < st.minTime
  }

  /** How far the state is from both targets; every round shrinks it. */
  function Deficit(st: State): nat
  {
    (if st.iterationsLog2 < st.minIterationsLog2 then st.minIterationsLog2 - st.iterationsLog2 else 0)
    + (if st.time < st.minTime then st.minTime - st.time else 0)
  }

  /** One doubling round: `pow(2, iterations_log2++)` digest applications to
      the current hash, then the round's duration added to `time`. */
  function Round(d: DigestFn, st: State, duration: Tick): State
  {
    st.(hash := Iterate(d, st.algorithm, Pow2(st.iterationsLog2), st.hash),
        iterationsLog2 := st.iterationsLog2 + 1,
        time := st.time + duration)
  }

  /** Rounds until `need_hashing()` is false; the `k`-th round of the run
      (counting from `k`) lasts `clock(k)`. */
  function Calibrate(d: DigestFn, st: State, clock: Clock, k: nat): State
    decreases Deficit(st)
  {
    if NeedHashing(st) then Calibrate(d, Round(d, st, clock(k)), clock, k + 1) else st
  }

  /** Sum of the durations of rounds `lo` .. `hi - 1`. */
  function ClockSum(clock: Clock, lo: nat, hi: nat): nat
    decreases hi - lo
  {
    if hi <= lo then 0 else clock(lo) + ClockSum(clock, lo + 1, hi)
  }

  // ---------------------------------------------------------------------
  // Algorithm selection and salt

  /** `set_algorithm`: only a supported algorithm is stored. */
  function SetAlgorithm(algos: set<Algorithm>, st: State, alg: Algorithm): Result<State>
  {
    if alg in algos then Ok(st.(algorithm := alg)) else Fail(UnsupportedAlgorithm)
  }

  /** `random_binary_string(n)`: the first `n` draws of the random source. */
  function RandomBytes(n: nat, random: RandomSource): Bytes
  {
    seq(n, (k: nat) => random(k))
  }

  /** `generate_salt()` followed by `hash = salt . plaintext` and the reset of
      `time` and `iterations_log2`: the start of a new digest chain. */
  function Restart(d: DigestFn, st: State, p: Bytes, random: RandomSource): State
  {
    var salt := RandomBytes(|d(st.algorithm, [])|, random);
    st.(salt := salt, hash := salt + p, time := 0, iterationsLog2 := 0)
  }

  // ---------------------------------------------------------------------
  // Serialised form

  /** A property value of a decoded record or of the object itself. */
  datatype Value = Null | Text(text: string) | Binary(bytes: Bytes) | Number(number: int)

  /** A decoded record: property names to values. */
  type Record = map<string, Value>

  /** `serialize_to_json()` before JSON encoding: exactly the five persisted
      properties, each with the value the object currently holds; the
      plaintext and the targets are not persisted. */
  function Serialized(st: State): (r: Record)
    ensures r.Keys == {"hash", "salt", "algorithm", "time", "iterations_log2"}
    ensures forall name :: name in r ==> r[name] == Property(st, name)
  {
    map["hash" := Binary(st.hash), "salt" := Binary(st.salt), "algorithm" := Text(st.algorithm),
        "time" := Number(st.time), "iterations_log2" := Number(st.iterationsLog2)]
  }

  // ---------------------------------------------------------------------
  // Operations

  /** `hash_plaintext`: select the algorithm, start a chain from a fresh salt
      and the plaintext, set the targets and calibrate; returns the record. */
  function HashPlaintext(d: DigestFn, algos: set<Algorithm>, st: State, p: Bytes, alg: Algorithm,
                         minTime: int, minIterationsLog2: int,
                         random: RandomSource, clock: Clock): Step<Record>
  {
    match SetAlgorithm(algos, st, alg)
    case Fail(e) => Step(st, Fail(e))
    case Ok(selected) =>
      var start := Restart(d, selected.(plaintext := Some(p)), p, random)
                     .(minTime := minTime, minIterationsLog2 := minIterationsLog2);
      var done := Calibrate(d, start, clock, 0);
      Step(done, Ok(Serialized(done)))
  }

  /** The targets after `hash()` applied its non-null arguments. */
  function WithTargets(st: State, minTime: Option<int>, minIterationsLog2: Option<int>): State
  {
    st.(minTime := if minTime.Some? then minTime.value else st.minTime,
        minIterationsLog2 := if minIterationsLog2.Some? then minIterationsLog2.value else st.minIterationsLog2)
  }

  /** The algorithm switch of `hash()` (when asked for a different algorithm)
      followed by the new targets; fails before changing anything. */
  function Prepared(d: DigestFn, algos: set<Algorithm>, st: State, alg: Option<Algorithm>,
                    minTime: Option<int>, minIterationsLog2: Option<int>,
                    random: RandomSource): Result<State>
  {
    var switched :=
      if alg.Some? && alg.value != st.algorithm then
        if st.plaintext.None? then Fail(PlaintextRequired)
        else match SetAlgorithm(algos, st, alg.value)
             case Fail(e) => Fail(e)
             case Ok(selected) => Ok(Restart(d, selected, st.plaintext.value, random))
      else Ok(st);
    match switched
    case Fail(e) => Fail(e)
    case Ok(s) => Ok(WithTargets(s, minTime, minIterationsLog2))
  }

  /** `hash()`: returns whether hashing was needed and done. */
  function Hash(d: DigestFn, algos: set<Algorithm>, st: State, alg: Option<Algorithm>,
                minTime: Option<int>, minIterationsLog2: Option<int>,
                random: RandomSource, clock: Clock): Step<bool>
  {
    match Prepared(d, algos, st, alg, minTime, minIterationsLog2, random)
    case Fail(e) => Step(st, Fail(e))
    case Ok(s) =>
      if !NeedHashing(s) then Step(s, Ok(false))
      else if s.hash == [] then Step(s, Fail(NoHashToContinue))
      else Step(Calibrate(d, s, clock, 0), Ok(true))
  }

  /** `does_match_plaintext` as written: the candidate is salted and digested
      `2^iterations_log2` times; `elapsed` is the measured duration. */
  function Verify(d: DigestFn, st: State, candidate: Bytes, elapsed: nat): Step<bool>
  {
    VerifyWith(d, st, candidate, elapsed, Pow2(st.iterationsLog2))
  }

  /** `does_match_plaintext` with the work count calibration actually did,
      `2^iterations_log2 - 1`. */
  function VerifyIntended(d: DigestFn, st: State, candidate: Bytes, elapsed: nat): Step<bool>
  {
    VerifyWith(d, st, candidate, elapsed, Pow2(st.iterationsLog2) - 1)
  }

  /** The verification procedure for a given number of digest applications. */
  function VerifyWith(d: DigestFn, st: State, candidate: Bytes, elapsed: nat, work: nat): Step<bool>
  {
    if st.plaintext == Some(candidate) then Step(st, Ok(true))
    else if st.hash == [] then Step(st, Fail(NoHashToCompare))
    else
      var timed := st.(time := elapsed);
      if Iterate(d, st.algorithm, work, st.salt + candidate) == st.hash
      then Step(timed.(plaintext := Some(candidate)), Ok(true))
      else Step(timed, Ok(false))
  }

  // ---------------------------------------------------------------------
  // Property copying and deserialisation

  /** `isset($object->{$name})` on a decoded record. */
  predicate IsSet(obj: Record, name: string)
  {
    name in obj && obj[name] != Null
  }

  /** `$object->{$name}` on a decoded record; an undefined property reads as null. */
  function Read(obj: Record, name: string): Value
  {
    if name in obj then obj[name] else Null
  }

  /** `$this->{$name}`: the object's fields seen as properties (null for a
      null field or an undeclared name, so `isset` is `!= Null`). */
  function Property(st: State, name: string): Value
  {
    if name == "plaintext" then (if st.plaintext.Some? then Binary(st.plaintext.value) else Null)
    else if name == "hash" then Binary(st.hash)
    else if name == "salt" then Binary(st.salt)
    else if name == "algorithm" then Text(st.algorithm)
    else if name == "time" then Number(st.time)
    else if name == "min_time" then Number(st.minTime)
    else if name == "iterations_log2" then Number(st.iterationsLog2)
    else if name == "min_iterations_log2" then Number(st.minIterationsLog2)
    else Null
  }

  /** `$this->{$name} = $value` for a value that fits the field; `None` when it
      does not (the model's typed fields cannot hold it). */
  function Assign(st: State, name: string, v: Value): Option<State>
  {
    if name == "plaintext" && v.Binary? then Some(st.(plaintext := Some(v.bytes)))
    else if name == "plaintext" && v.Null? then Some(st.(plaintext := None))
    else if name == "hash" && v.Binary? then Some(st.(hash := v.bytes))
    else if name == "salt" && v.Binary? then Some(st.(salt := v.bytes))
    else if name == "algorithm" && v.Text? then Some(st.(algorithm := v.text))
    else if name == "time" && v.Number? && v.number >= 0 then Some(st.(time := v.number))
    else if name == "min_time" && v.Number? then Some(st.(minTime := v.number))
    else if name == "iterations_log2" && v.Number? && v.number >= 0 then Some(st.(iterationsLog2 := v.number))
    else if name == "min_iterations_log2" && v.Number? then Some(st.(minIterationsLog2 := v.number))
    else None
  }

  /** One element of `$property_names`: `key => target`, where an integer key
      (`None`) means the source name is the target name. */
  datatype Entry = Entry(key: Option<string>, target: string)

  /** `$property_names`: a single string, or an array. */
  datatype PropertyNames = One(name: string) | Many(entries: seq<Entry>)

  /** A single property name is treated as a list holding just that name. */
  function Entries(names: PropertyNames): seq<Entry>
  {
    match names
    case One(n) => [Entry(None, n)]
    case Many(es) => es
  }

  function SourceName(e: Entry): string
  {
    match e.key
    case Some(k) => k
    case None => e.target
  }

  /** Which source property the copied value is read from. */
  datatype ReadRule =
    | ReadTargetName   // as written at line 212: read under the target's name
    | ReadSourceName   // as intended: the property whose presence was checked

  function ReadName(e: Entry, rule: ReadRule): string
  {
    match rule
    case ReadTargetName => e.target
    case ReadSourceName => SourceName(e)
  }

  /** One iteration of the `foreach` in `copy_object_property`. */
  function CopyEntry(st: State, source: Record, e: Entry, rule: ReadRule): Result<State>
  {
    if !IsSet(source, SourceName(e)) then Fail(MissingSourceProperty(SourceName(e)))
    else if Property(st, e.target) == Null then Fail(MissingTargetProperty(e.target))
    else match Assign(st, e.target, Read(source, ReadName(e, rule)))
         case None => Fail(MistypedProperty(e.target))
         case Some(s) => Ok(s)
  }

  /** A step whose count is raised by `i`. */
  function Shifted(s: Step<nat>, i: nat): Step<nat>
  {
    match s.result
    case Ok(n) => Step(s.state, Ok(n + i))
    case Fail(e) => s
  }

  /** `copy_object_property`: the entries in order, stopping at the first
      failure; returns how many were copied. */
  function Copy(st: State, source: Record, es: seq<Entry>, rule: ReadRule): Step<nat>
    decreases |es|
  {
    if es == [] then Step(st, Ok(0))
    else match CopyEntry(st, source, es[0], rule)
         case Fail(e) => Step(st, Fail(e))
         case Ok(s) => Shifted(Copy(s, source, es[1..], rule), 1)
  }

  /** The names `unserialize_from_json` copies. */
  const SerializedNames: seq<Entry> :=
    [Entry(None, "hash"), Entry(None, "salt"), Entry(None, "time"), Entry(None, "iterations_log2")]

  /** `unserialize_from_json` on an already decoded record: select the
      record's algorithm, forget the plaintext, copy the four fields. */
  function Unserialize(algos: set<Algorithm>, st: State, data: Record): Step<()>
  {
    match Read(data, "algorithm")
    case Text(alg) =>
      (match SetAlgorithm(algos, st, alg)
       case Fail(e) => Step(st, Fail(e))
       case Ok(selected) =>
         var copied := Copy(selected.(plaintext := None), data, SerializedNames, ReadSourceName);
         Step(copied.state, if copied.result.Ok? then Ok(()) else Fail(copied.result.error)))
    case _ => Step(st, Fail(UnsupportedAlgorithm))
  }
}
