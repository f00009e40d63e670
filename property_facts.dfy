/** What `copy_object_property` and `unserialize_from_json` do, and the
    record round trip `serialize_to_json` / `unserialize_from_json`. */
module PropertyFacts {
  import opened Digests
  import opened HashState

  /** A successful assignment sets the named property to the value and leaves
      every other property as it was. */
  lemma AssignSetsOnlyThatProperty(st: State, name: string, v: Value)
    requires Assign(st, name, v).Some?
    ensures Property(Assign(st, name, v).value, name) == v
    ensures forall m :: m != name ==> Property(Assign(st, name, v).value, m) == Property(st, m)
  {
  }

  /** On success the count returned is the number of names. */
  lemma {:induction false} CopyCountsEveryName(st: State, source: Record, es: seq<Entry>, rule: ReadRule)
    requires Copy(st, source, es, rule).result.Ok?
    ensures Copy(st, source, es, rule).result.value == |es|
    decreases |es|
  {
    if es != [] {
      var s := CopyEntry(st, source, es[0], rule).value;
      CopyCountsEveryName(s, source, es[1..], rule);
    }
  }

  /** On failure, the state is the one left by copying the names before the
      first one that failed, and the error is that name's. */
  lemma {:induction false} CopyStopsAtFirstFailure(st: State, source: Record, es: seq<Entry>, rule: ReadRule)
    requires Copy(st, source, es, rule).result.Fail?
    ensures exists j :: 0 <= j < |es|
              && Copy(st, source, es[..j], rule) == Step(Copy(st, source, es, rule).state, Ok(j))
              && CopyEntry(Copy(st, source, es, rule).state, source, es[j], rule)
                 == Fail(Copy(st, source, es, rule).result.error)
    decreases |es|
  {
    var c := Copy(st, source, es, rule);
    assert es != [];
    match CopyEntry(st, source, es[0], rule)
    case Fail(e) =>
      assert Copy(st, source, es[..0], rule) == Step(c.state, Ok(0));
    case Ok(s) =>
      var rest := es[1..];
      CopyStopsAtFirstFailure(s, source, rest, rule);
      var j :| 0 <= j < |rest|
               && Copy(s, source, rest[..j], rule) == Step(Copy(s, source, rest, rule).state, Ok(j))
               && CopyEntry(Copy(s, source, rest, rule).state, source, rest[j], rule)
                  == Fail(Copy(s, source, rest, rule).result.error);
      assert es[..j + 1][1..] == rest[..j];
      assert es[..j + 1] != [] && es[..j + 1][0] == es[0];
      assert Copy(st, source, es[..j + 1], rule) == Step(c.state, Ok(j + 1));
      assert es[j + 1] == rest[j];
  }

  /** The names every entry writes to. */
  function Targets(es: seq<Entry>): set<string>
  {
    set i | 0 <= i < |es| :: es[i].target
  }

  /** A successful copy with distinct targets, under either reading rule:
      every entry's source name was present in the source, every target
      property ends up holding the source's value under the name the rule
      reads, and every other property is untouched. */
  lemma {:induction false} CopyStoresReadValues(st: State, source: Record, es: seq<Entry>, rule: ReadRule)
    requires Copy(st, source, es, rule).result.Ok?
    requires forall i, j :: 0 <= i < j < |es| ==> es[i].target != es[j].target
    ensures forall i :: 0 <= i < |es| ==>
              IsSet(source, SourceName(es[i]))
              && Property(Copy(st, source, es, rule).state, es[i].target) == Read(source, ReadName(es[i], rule))
    ensures forall m :: m !in Targets(es) ==>
              Property(Copy(st, source, es, rule).state, m) == Property(st, m)
    decreases |es|
  {
    if es != [] {
      var e := es[0];
      var s := CopyEntry(st, source, e, rule).value;
      var rest := es[1..];
      var final := Copy(st, source, es, rule).state;
      assert final == Copy(s, source, rest, rule).state;
      AssignSetsOnlyThatProperty(st, e.target, Read(source, ReadName(e, rule)));
      CopyStoresReadValues(s, source, rest, rule);
      assert forall i :: 1 <= i < |es| ==> es[i] == rest[i - 1];
      assert e.target !in Targets(rest);
      forall m | m !in Targets(es)
        ensures Property(final, m) == Property(st, m)
      {
        assert m != e.target;
        assert m !in Targets(rest);
      }
    }
  }

  /** Copying as line 212 is written: presence is checked under each entry's
      source name, but every target receives the source's value under the
      target's own name (null when the source has no such property). */
  lemma CopyAsWrittenReadsTargetName(st: State, source: Record, es: seq<Entry>)
    requires Copy(st, source, es, ReadTargetName).result.Ok?
    requires forall i, j :: 0 <= i < j < |es| ==> es[i].target != es[j].target
    ensures forall i :: 0 <= i < |es| ==>
              IsSet(source, SourceName(es[i]))
              && Property(Copy(st, source, es, ReadTargetName).state, es[i].target) == Read(source, es[i].target)
  {
    CopyStoresReadValues(st, source, es, ReadTargetName);
  }

  /** Copying with the intended reading rule: every target property ends up
      holding the source's value under the entry's source name, and every
      other property is untouched. */
  lemma CopyIntendedReadsSource(st: State, source: Record, es: seq<Entry>)
    requires Copy(st, source, es, ReadSourceName).result.Ok?
    requires forall i, j :: 0 <= i < j < |es| ==> es[i].target != es[j].target
    ensures forall i :: 0 <= i < |es| ==>
              SourceName(es[i]) in source
              && Property(Copy(st, source, es, ReadSourceName).state, es[i].target) == source[SourceName(es[i])]
    ensures forall m :: m !in Targets(es) ==>
              Property(Copy(st, source, es, ReadSourceName).state, m) == Property(st, m)
  {
    CopyStoresReadValues(st, source, es, ReadSourceName);
  }

  /** When no entry renames (every source name is its target name), the rule
      by which the value is read makes no difference. */
  lemma {:induction false} PlainNamesReadAlike(st: State, source: Record, es: seq<Entry>)
    requires forall i :: 0 <= i < |es| ==> es[i].key.None?
    ensures Copy(st, source, es, ReadTargetName) == Copy(st, source, es, ReadSourceName)
    decreases |es|
  {
    if es != [] {
      assert ReadName(es[0], ReadTargetName) == ReadName(es[0], ReadSourceName);
      match CopyEntry(st, source, es[0], ReadSourceName)
      case Fail(e) =>
      case Ok(s) =>
        PlainNamesReadAlike(s, source, es[1..]);
    }
  }

  /** Line 212 as written: for the mapping `'a' => 'hash'` the presence of
      `a` is checked, but the value copied is the source's `hash`. */
  lemma RenamedCopyAsWritten(st: State, x: Bytes, y: Bytes)
    requires x != y
    ensures var source := map["a" := Binary(x), "hash" := Binary(y)];
            var es := [Entry(Some("a"), "hash")];
            && Copy(st, source, es, ReadTargetName) == Step(st.(hash := y), Ok(1))
            && Copy(st, source, es, ReadSourceName) == Step(st.(hash := x), Ok(1))
            && Copy(st, source, es, ReadTargetName) != Copy(st, source, es, ReadSourceName)
  {
    var source := map["a" := Binary(x), "hash" := Binary(y)];
    var es := [Entry(Some("a"), "hash")];
    assert es[1..] == [];
    assert st.(hash := y) != st.(hash := x) by {
      assert st.(hash := y).hash != st.(hash := x).hash;
    }
  }

  /** `unserialize_from_json` of what `serialize_to_json` produced restores
      hash, salt, algorithm, time and `iterations_log2`, forgets the
      plaintext and keeps the receiving object's targets. */
  lemma UnserializeSerialized(algos: set<Algorithm>, st: State, saved: State)
    requires saved.algorithm in algos
    ensures Unserialize(algos, st, Serialized(saved))
            == Step(st.(plaintext := None, algorithm := saved.algorithm, hash := saved.hash,
                        salt := saved.salt, time := saved.time, iterationsLog2 := saved.iterationsLog2),
                    Ok(()))
  {
    var data := Serialized(saved);
    var s0 := st.(algorithm := saved.algorithm, plaintext := None);
    var s1 := s0.(hash := saved.hash);
    var s2 := s1.(salt := saved.salt);
    var s3 := s2.(time := saved.time);
    var s4 := s3.(iterationsLog2 := saved.iterationsLog2);
    var es := SerializedNames;
    assert es[1..] == [Entry(None, "salt"), Entry(None, "time"), Entry(None, "iterations_log2")];
    assert es[1..][1..] == [Entry(None, "time"), Entry(None, "iterations_log2")];
    assert es[1..][1..][1..] == [Entry(None, "iterations_log2")];
    assert es[1..][1..][1..][1..] == [];
    assert Copy(s3, data, es[1..][1..][1..], ReadSourceName) == Step(s4, Ok(1));
    assert Copy(s2, data, es[1..][1..], ReadSourceName) == Step(s4, Ok(2));
    assert Copy(s1, data, es[1..], ReadSourceName) == Step(s4, Ok(3));
    assert Copy(s0, data, es, ReadSourceName) == Step(s4, Ok(4));
  }

  /** Whatever the record holds, `unserialize_from_json` never changes the
      calibration targets, and once the algorithm is accepted the plaintext
      is forgotten even if copying fails part-way. */
  lemma UnserializeKeepsTargets(algos: set<Algorithm>, st: State, data: Record)
    ensures var u := Unserialize(algos, st, data);
            && u.state.minTime == st.minTime
            && u.state.minIterationsLog2 == st.minIterationsLog2
            && (u.result != Fail(UnsupportedAlgorithm) ==> u.state.plaintext.None?)
  {
    match Read(data, "algorithm")
    case Text(alg) =>
      if alg in algos {
        var s0 := st.(algorithm := alg, plaintext := None);
        assert forall i :: 0 <= i < |SerializedNames| ==> SerializedNames[i].target in SerializedFields;
        CopyKeepsTargetsAndPlaintext(s0, data, SerializedNames, ReadSourceName);
      }
    case _ =>
  }

  /** The fields `unserialize_from_json` copies. */
  const SerializedFields: set<string> := {"hash", "salt", "time", "iterations_log2"}

  /** Copying into serialised fields only, successful or not, leaves the
      targets and the plaintext alone. */
  lemma {:induction false} CopyKeepsTargetsAndPlaintext(st: State, source: Record, es: seq<Entry>, rule: ReadRule)
    requires forall i :: 0 <= i < |es| ==> es[i].target in SerializedFields
    ensures var c := Copy(st, source, es, rule).state;
            c.minTime == st.minTime && c.minIterationsLog2 == st.minIterationsLog2 && c.plaintext == st.plaintext
    decreases |es|
  {
    if es != [] {
      match CopyEntry(st, source, es[0], rule)
      case Fail(e) =>
      case Ok(s) =>
        assert es[0].target in SerializedFields;
        assert s.minTime == st.minTime && s.minIterationsLog2 == st.minIterationsLog2 && s.plaintext == st.plaintext;
        CopyKeepsTargetsAndPlaintext(s, source, es[1..], rule);
    }
  }

  /** One step of the copy loop: the entries from `i` on are the entry at `i`
      followed by those from `i + 1` on. */
  lemma CopyFrom(st: State, source: Record, es: seq<Entry>, i: nat, rule: ReadRule)
    requires i < |es|
    ensures Copy(st, source, es[i..], rule)
            == match CopyEntry(st, source, es[i], rule)
               case Fail(e) => Step(st, Fail(e))
               case Ok(s) => Shifted(Copy(s, source, es[i + 1..], rule), 1)
  {
    assert es[i..][0] == es[i];
    assert es[i..][1..] == es[i + 1..];
  }

  lemma ShiftedTwice(s: Step<nat>, i: nat)
    ensures Shifted(Shifted(s, 1), i) == Shifted(s, i + 1)
  {
  }

  /** Copying, successful or not, changes only properties that are targets. */
  lemma {:induction false} CopyKeepsUnnamed(st: State, source: Record, es: seq<Entry>, rule: ReadRule)
    ensures forall m :: m !in Targets(es) ==> Property(Copy(st, source, es, rule).state, m) == Property(st, m)
    decreases |es|
  {
    if es != [] {
      match CopyEntry(st, source, es[0], rule)
      case Fail(e) =>
      case Ok(s) =>
        AssignSetsOnlyThatProperty(st, es[0].target, Read(source, ReadName(es[0], rule)));
        CopyKeepsUnnamed(s, source, es[1..], rule);
        assert forall i :: 1 <= i < |es| ==> es[i] == es[1..][i - 1];
        forall m | m !in Targets(es)
          ensures Property(Copy(st, source, es, rule).state, m) == Property(st, m)
        {
          assert m != es[0].target;
          assert m !in Targets(es[1..]);
        }
    }
  }
}
