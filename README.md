# Password_Hash: a self-calibrating iterated-digest password hasher

`Password_Hash` derives a verifier from a password by applying a digest
algorithm over and over to salt . plaintext. It picks the number of
applications itself. It works in doubling rounds: round *r* applies the digest
2^r times. It keeps going until it has reached a minimum exponent
(`iterations_log2`) and a minimum total hashing time. Verification salts the
candidate, applies the digest a fixed number of times and compares the result
with the stored hash. The object's eight private fields are plaintext, hash,
salt, algorithm, time, min_time, iterations_log2 and min_iterations_log2.

The model has these parts:

- `digest.dfy` (module `Digests`): bytes, algorithm names, the digest as a
  function `(Algorithm, Bytes) -> Bytes`, `Iterate` (the digest applied *n*
  times), the counting facts about rounds, and `ApplyDigest`, the inner digest
  loop.
- `state.dfy` (module `HashState`): the eight fields as a value `State`. Each
  operation is a function from the old state (plus the clock, the random
  source and the digest it uses) to a `Step`: the new state together with the
  result or the exception. An exception keeps every assignment made before
  it.
- `password_hash.dfy` (module `PasswordHash`): class `AdaptiveHasher` has the
  eight fields and the source's methods, written as loops and field updates.
  Each method is proved to leave `Snapshot()` and its result exactly as the
  matching `HashState` function says.
- `calibration_facts.dfy`, `operation_facts.dfy`, `property_facts.dfy`: the
  properties of those functions.

Collaborators are parameters:

- `hash()` and `hash_algos()` are the const fields `Digest` and `Algos`.
- `microtime` is replaced by durations in microsecond ticks. `clock(k)` is
  how long round *k* of one calibration run took, and it is at least one
  tick. `elapsed` is how long one verification took.
- `mt_rand(0, 255)` is `random(k)`, the *k*-th draw during a call.
- The salt is as long as `Digest(algorithm, [])`, because that is how the code
  measures it (line 230). No fixed output length is assumed.

Three behaviours of the code are easy to misread from the method names and
doc comments. The model follows the code:

- `unserialize_from_json` restores only the five persisted fields
  (library-hash-password-xii.php:75-81). The calibration targets stay as
  the receiving object had them.
- The doc comment of `hash()` (library-hash-password-xii.php:115-120) says
  a hash must exist before the call. The code checks for a missing hash only
  after applying the new targets and finding them unmet (lines 147-154). A
  state with no hash whose targets are met returns false.
- Hashing a plaintext, serialising, restoring and then verifying the same
  plaintext is evidently meant to succeed. The code does not achieve it
  (see Findings).

## Model

| member | source | states |
|---|---|---|
| `Digests.ApplyDigest` | library-hash-password-xii.php:96-99 | the inner `for` loop leaves the digest applied exactly n times to its input, that is `Iterate(n, x)` |
| `Digests.IterateAdd` | library-hash-password-xii.php:159-162 | applying n times and then m more times is applying n + m times, so a later run continues the chain where the hash was left |
| `Digests.RoundsWorkClosedForm` | library-hash-password-xii.php:53 | rounds entered with exponents lo..hi-1 apply the digest 2^hi − 2^lo times in total, which is 2^k − 1 from exponent 0 |
| `CalibrationFacts.NeedHashingMeansDeficit` | library-hash-password-xii.php:50-58 | progress of the calibration loop: while `need_hashing` (lines 110-113) holds, each round strictly shrinks the remaining distance to the two targets, and that distance is zero exactly when `need_hashing` is false |
| `HashState.Serialized` | library-hash-password-xii.php:63-73 | `serialize_to_json` before encoding records exactly hash, salt, algorithm, time and iterations_log2, each with the value the object holds; plaintext and targets are not persisted |
| `CalibrationFacts.CalibrateMeetsTargets` | library-hash-password-xii.php:50-58 | when the loop ends, `need_hashing` is false: iterations_log2 ≥ min_iterations_log2 and time ≥ min_time |
| `CalibrationFacts.CalibrateCounts` | library-hash-password-xii.php:53-57 | going from exponent r to R, the loop applies the digest 2^r + … + 2^(R−1) times to the hash it found, adds exactly the round durations to time, runs zero rounds exactly when no target is missing, and leaves plaintext, salt, algorithm and targets alone |
| `CalibrationFacts.CalibrateKeepsChain` | library-hash-password-xii.php:156-165 | a hash equal to a seed digested 2^r − 1 times is, after calibrating to R, that seed digested 2^R − 1 times |
| `CalibrationFacts.CalibrateWhenTimeIsMet` | library-hash-password-xii.php:110-113 | when the time target is already met, the loop stops at exactly max(iterations_log2, min_iterations_log2) |
| `OperationFacts.HashPlaintextRefusesOnlyUnsupported` | library-hash-password-xii.php:218-226 | `hash_plaintext` fails if and only if the algorithm is unsupported, and then no field has changed |
| `OperationFacts.HashPlaintextCalibrates` | library-hash-password-xii.php:39-61 | afterwards: both targets are met; the plaintext is known; the salt holds the first draws and is as long as the digest; hash = Iterate(2^k − 1, salt . plaintext); time = the sum of the k round durations; the record returned is the serialised state; k = 0 if and only if both targets are ≤ 0 |
| `OperationFacts.HashPlaintextThreeRounds` | library-hash-password-xii.php:48-58 | with min_time 0 and min_iterations_log2 3, it stops at exponent 3 after 7 applications |
| `OperationFacts.PreparedWithoutSwitch` | library-hash-password-xii.php:138-145 | with no algorithm, or the current one, `hash()` only overwrites the targets whose arguments are non-null |
| `OperationFacts.HashSatisfiedIsNoop` | library-hash-password-xii.php:138-150 | without an algorithm switch, when the targets once applied are met, `hash()` returns false and the final state is the old one with exactly the non-null targets overwritten, even with an empty hash |
| `OperationFacts.HashOutcomeMeetsTargets` | library-hash-password-xii.php:124-166 | for any requested algorithm, `hash()` returns false if and only if the prepared state (switch done, targets written) meets its targets, the state is then that prepared state, and every call that returns leaves both targets met |
| `OperationFacts.SecondHashIsNoop` | library-hash-password-xii.php:138-150 | calling `hash()` on a calibrated state with the same or lower targets returns false and does no work |
| `OperationFacts.HashRunsRounds` | library-hash-password-xii.php:138-166 | `hash()` returns true if and only if the prepared state misses a target and has a hash; it then runs at least one round and meets both targets the call set, plaintext, salt, algorithm and targets stay those of the prepared state, and the digest count and time grow by exactly the rounds' work and durations |
| `OperationFacts.HashGuardOrder` | library-hash-password-xii.php:147-154 | the "without hash" error happens if and only if the targets are unmet and the hash is empty, and the new targets stay in place |
| `OperationFacts.HashSwitchRefused` | library-hash-password-xii.php:124-131 | a switch to a different algorithm fails with no change: first if the plaintext is unknown, then if the algorithm is unsupported |
| `OperationFacts.HashSwitchRestarts` | library-hash-password-xii.php:124-146 | a successful switch sets the new algorithm, a fresh salt as long as the new digest, hash = salt . plaintext, time 0 and exponent 0, then overwrites the targets given; the final hash is salt . plaintext digested 2^k − 1 times |
| `OperationFacts.HashResumesChain` | library-hash-password-xii.php:156-165 | without a switch, `hash()` keeps a (2^r − 1)-chain a (2^R − 1)-chain of the same seed, whatever the outcome |
| `OperationFacts.VerifyOutcome` | library-hash-password-xii.php:83-108 | shortcut on a known equal plaintext with no change; error on an empty hash; otherwise true if and only if Iterate(2^iterations_log2, salt . candidate) = hash; time overwritten; plaintext set only on a match; hash, salt, exponent and targets never change |
| `OperationFacts.VerifyChainAsWritten` | library-hash-password-xii.php:94-102 | against a hash that is salt . p digested 2^k − 1 times, verification of p succeeds if and only if that hash is a fixed point of the digest |
| `OperationFacts.VerifyChainIntended` | library-hash-password-xii.php:96 | with 2^k − 1 applications, the right plaintext always matches and is learnt |
| `OperationFacts.RoundTripAsWritten` | library-hash-password-xii.php:39-108 | hash_plaintext, then the record, then unserialize into any object, then verify the same plaintext gives "is the stored hash a fixed point of the digest" |
| `OperationFacts.RoundTripIntended` | library-hash-password-xii.php:39-108 | the same sequence with the intended work count accepts the plaintext whenever there is a hash |
| `OperationFacts.RoundTripFailsAsWritten` | library-hash-password-xii.php:96 | with the digest x ↦ x . 0x00, the round trip rejects the plaintext just hashed, for every input |
| `PropertyFacts.AssignSetsOnlyThatProperty` | library-hash-password-xii.php:212 | assigning a property sets that property to the value and no other |
| `PropertyFacts.CopyCountsEveryName` | library-hash-password-xii.php:195-215 | on success, `copy_object_property` returns the number of names |
| `PropertyFacts.CopyStopsAtFirstFailure` | library-hash-password-xii.php:203-210 | on failure, the state is the one left by copying the names before the first failing one, and the error is that name's |
| `PropertyFacts.CopyStoresReadValues` | library-hash-password-xii.php:195-215 | a successful copy with distinct targets, under either reading rule, found every source name set, gives each target the source's value under the name the rule reads, and changes no other property |
| `PropertyFacts.CopyAsWrittenReadsTargetName` | library-hash-password-xii.php:203-212 | as written, presence is checked under each source name but every target gets the source's value under the target's own name |
| `PropertyFacts.CopyIntendedReadsSource` | library-hash-password-xii.php:196-212 | read as intended, each target ends up holding the source's value under the entry's source name, and every other property is unchanged |
| `PropertyFacts.PlainNamesReadAlike` | library-hash-password-xii.php:198-201 | when no entry renames, reading under the target name and under the source name give the same copy |
| `PropertyFacts.RenamedCopyAsWritten` | library-hash-password-xii.php:212 | for the entry `'a' => 'hash'`, the presence of `a` is checked but the source's `hash` is copied |
| `PropertyFacts.CopyKeepsUnnamed` | library-hash-password-xii.php:196-214 | successful or not, a copy changes only the properties it names |
| `PropertyFacts.CopyKeepsTargetsAndPlaintext` | library-hash-password-xii.php:80 | copying the serialised fields, successful or not, leaves the targets and the plaintext alone |
| `PropertyFacts.UnserializeSerialized` | library-hash-password-xii.php:63-81 | unserializing a serialised state restores hash, salt, algorithm, time and iterations_log2, clears the plaintext and keeps the receiver's targets |
| `PropertyFacts.UnserializeKeepsTargets` | library-hash-password-xii.php:75-81 | `unserialize_from_json` never changes the targets; once the algorithm is accepted, the plaintext is null even if copying fails part-way |
| `PasswordHash.AdaptiveHasher.constructor` | library-hash-password-xii.php:169-176 | the field initialisers: no plaintext, empty hash, salt and algorithm, all numbers 0 |
| `PasswordHash.AdaptiveHasher.SetMinRequirements` | library-hash-password-xii.php:28-32 | overwrites both targets (defaults 2 s = 2 000 000 ticks and 17) and nothing else |
| `PasswordHash.AdaptiveHasher.HashPlaintext` | library-hash-password-xii.php:39-61 | with the class defaults (whirlpool, two seconds, exponent 17) for omitted arguments, leaves the fields and result as `HashState.HashPlaintext` says |
| `PasswordHash.AdaptiveHasher.UnserializeFromJson` | library-hash-password-xii.php:75-81 | leaves the fields and result as `HashState.Unserialize` says |
| `PasswordHash.AdaptiveHasher.DoesMatchPlaintext` | library-hash-password-xii.php:83-108 | leaves the fields and result as `HashState.Verify` says |
| `PasswordHash.AdaptiveHasher.Hash` | library-hash-password-xii.php:122-167 | leaves the fields and result as `HashState.Hash` says |
| `PasswordHash.AdaptiveHasher.Round` | library-hash-password-xii.php:52-57 | one round: 2^r applications to the hash, exponent r + 1, time plus the round's duration |
| `PasswordHash.AdaptiveHasher.Calibrate` | library-hash-password-xii.php:50-58 | the `while (need_hashing())` loop leaves the state `HashState.Calibrate` gives |
| `PasswordHash.AdaptiveHasher.RandomBinaryString` | library-hash-password-xii.php:178-186 | returns exactly `length` bytes, the k-th being the k-th draw of the random source |
| `PasswordHash.AdaptiveHasher.CopyObjectProperty` | library-hash-password-xii.php:188-216 | the `foreach` over the names, with its counter and early exceptions, leaves the target and result as `HashState.Copy` with the as-written read rule says |
| `PasswordHash.AdaptiveHasher.SetProperty` | library-hash-password-xii.php:212 | stores a value that fits the named field, and otherwise changes nothing and reports it |
| `PasswordHash.AdaptiveHasher.SetAlgorithm` | library-hash-password-xii.php:218-226 | stores the algorithm if it is supported; otherwise fails with no change |
| `PasswordHash.AdaptiveHasher.GenerateSalt` | library-hash-password-xii.php:228-231 | the salt becomes the first \|Digest(algorithm, '')\| draws; nothing else changes |

## Left out

- JSON text. `json_encode` and `json_decode` (library-hash-password-xii.php:63-73, 77) are library serialisation. `serialize_to_json` is modelled as the record `Serialized`, and `unserialize_from_json` takes a record that is already decoded. The model therefore does not capture that `json_encode` rejects binary strings that are not valid UTF-8.
- The getters and the single-target setters (library-hash-password-xii.php:16-26). They are plain field reads and writes.
- Floating-point time. `microtime(true)` differences are replaced by whole microsecond ticks. Every calibration round is assumed to take at least one tick, which is what makes the loop terminate. A round measured as 0 seconds is not modelled.
- The digest algorithms themselves and `hash_algos()`. They are an arbitrary total function and an arbitrary set.
- The quality of `mt_rand`. It is an arbitrary source of values 0..255.
- The timing side channel of the known-plaintext shortcut in `does_match_plaintext`. The model only has the shortcut's result.
- PHP's loose `in_array` comparison and non-string algorithm values. A record whose `algorithm` is missing or is not text is treated as an unsupported algorithm.
- PHP's `pow` on a negative or fractional `iterations_log2`. The exponent is a natural number.
- PHP's `pow` beyond the integer range. From `iterations_log2` = 63 on, `pow(2, iterations_log2)` is a float, and the counting-down loops at lines 53, 96 and 159 then never reach 0. The model's `Pow2` is exact at every exponent.
- PasswordHash.AdaptiveHasher.CopyObjectProperty: a value whose kind does not fit the field is refused with `MistypedProperty`. This includes text into `time`, a negative number into `iterations_log2`, and the null that line 212 reads for a missing property. PHP's untyped properties would store such a value.
- PasswordHash.AdaptiveHasher.DoesMatchPlaintext: follows the code as written (2^iterations_log2 applications). The corrected procedure exists only as the function `HashState.VerifyIntended` and its lemmas.

## Findings

| source | as written | input that shows it | evidently intended | confidence | as-written member | corrected member |
|---|---|---|---|---|---|---|
| library-hash-password-xii.php:96 | verification applies the digest `pow(2, iterations_log2)` times, but calibration (line 53, rounds 2^0 + … + 2^(k−1)) stored the digest applied 2^k − 1 times | any plaintext and algorithm with the digest x ↦ x . 0x00: hash_plaintext, serialise, unserialize, then does_match_plaintext of the same plaintext returns false | apply the digest 2^iterations_log2 − 1 times, so the plaintext that was hashed verifies | high (not executed) | `OperationFacts.RoundTripFailsAsWritten` | `OperationFacts.RoundTripIntended` |
| library-hash-password-xii.php:212 | the value is read as `$source_object->{$target_property_name}`, but presence was checked under `$source_property_name` (line 203) | names `['a' => 'hash']` with a source where `a` is x and `hash` is y, and x ≠ y: y is copied | read `$source_object->{$source_property_name}` | high (not executed) | `PropertyFacts.RenamedCopyAsWritten` | `PropertyFacts.CopyIntendedReadsSource` |

`HashState.Unserialize` uses the intended read rule. `PropertyFacts.PlainNamesReadAlike` proves that for the names `unserialize_from_json` passes, the as-written rule in `AdaptiveHasher.CopyObjectProperty` gives the same result. The class keeps the code's verification count. `VerifyIntended` is the corrected specification.
