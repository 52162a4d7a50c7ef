/**
  What the encoder puts on the wire, for any value whatever: plain values, lists and
  dictionaries only, and dictionaries whose keys come to coincide, in either direction.
*/
module CodecWire {

  import opened Wrappers
  import opened Codec
  import opened CodecRoundTrip

  // ----- Plain all the way down -----

  /** Text, numbers, bytes, lists and dictionaries: no enum member, no message object and no tuple at any depth. */
  predicate IsWire(value: Value)
    decreases value
  {
    match value
    case Member(_, _) => false
    case Record(_, _) => false
    case Items(items, isTuple) => !isTuple && forall i :: 0 <= i < |items| ==> IsWire(items[i])
    case Entries(entries) => forall i :: 0 <= i < |entries| ==> IsWire(entries[i].0) && IsWire(entries[i].1)
    case _ => true
  }

  predicate AreWire(entries: seq<(Value, Value)>) {
    forall i :: 0 <= i < |entries| ==> IsWire(entries[i].0) && IsWire(entries[i].1)
  }

  lemma PutKeepsWire(entries: seq<(Value, Value)>, key: Value, value: Value)
    requires AreWire(entries) && IsWire(key) && IsWire(value)
    ensures AreWire(Put(entries, key, value))
  {
    hide IsWire;
  }

  /** Whatever is encoded, nothing but plain values, lists and dictionaries goes out. */
  lemma {:induction false} OnlyPlainValuesGoOut(value: Value)
    ensures IsWire(ToWire(value))
    decreases value, 1, 0
  {
    match value {
      case Record(_, _) => FieldsGoOutPlain(value, |value.fields|);
      case Items(items, _) =>
        forall i | 0 <= i < |items| ensures IsWire(ToWire(items[i])) {
          OnlyPlainValuesGoOut(items[i]);
        }
      case Entries(_) => EntriesGoOutPlain(value, |value.entries|);
      case _ =>
    }
  }

  lemma {:induction false} FieldsGoOutPlain(record: Value, n: nat)
    requires record.Record? && n <= |record.fields|
    ensures AreWire(ToWireFields(record, n))
    decreases record, 0, n
  {
    hide ToWire, Put;
    if n > 0 {
      FieldsGoOutPlain(record, n - 1);
      OnlyPlainValuesGoOut(record.fields[n - 1].1);
      PutKeepsWire(ToWireFields(record, n - 1), Text(record.fields[n - 1].0), ToWire(record.fields[n - 1].1));
    }
  }

  lemma {:induction false} EntriesGoOutPlain(dictionary: Value, n: nat)
    requires dictionary.Entries? && n <= |dictionary.entries|
    ensures AreWire(ToWireEntries(dictionary, n))
    decreases dictionary, 0, n
  {
    hide ToWire, Put;
    if n > 0 {
      var entry := dictionary.entries[n - 1];
      EntriesGoOutPlain(dictionary, n - 1);
      OnlyPlainValuesGoOut(entry.0);
      OnlyPlainValuesGoOut(entry.1);
      PutKeepsWire(ToWireEntries(dictionary, n - 1), ToWire(entry.0), ToWire(entry.1));
    }
  }

  /** What is plain already goes out as it is, so encoding twice is encoding once. */
  lemma {:induction false} PlainValuesStay(value: Value)
    requires IsWire(value) && DictionariesAreDistinct(value)
    ensures ToWire(value) == value
    decreases value, 1, 0
  {
    match value {
      case Items(items, _) =>
        forall i | 0 <= i < |items| ensures ToWire(items[i]) == items[i] {
          PlainValuesStay(items[i]);
        }
        assert ToWire(value).items == items;
      case Entries(entries) =>
        PlainEntriesStay(value, |entries|);
        assert entries[..|entries|] == entries;
      case _ =>
    }
  }

  /** Every dictionary, at any depth, has each key once. */
  predicate DictionariesAreDistinct(value: Value)
    decreases value
  {
    match value
    case Items(items, _) => forall i :: 0 <= i < |items| ==> DictionariesAreDistinct(items[i])
    case Entries(entries) =>
      && DistinctKeys(entries)
      && forall i :: 0 <= i < |entries| ==>
           DictionariesAreDistinct(entries[i].0) && DictionariesAreDistinct(entries[i].1)
    case _ => true
  }

  lemma {:induction false} PlainEntriesStay(dictionary: Value, n: nat)
    requires dictionary.Entries? && n <= |dictionary.entries|
    requires IsWire(dictionary) && DictionariesAreDistinct(dictionary)
    ensures ToWireEntries(dictionary, n) == dictionary.entries[..n]
    decreases dictionary, 0, n
  {
    hide ToWire, Put;
    if n > 0 {
      var entry := dictionary.entries[n - 1];
      PlainEntriesStay(dictionary, n - 1);
      PlainValuesStay(entry.0);
      PlainValuesStay(entry.1);
      NewKeyGoesLast(dictionary.entries[..n - 1], entry.0, entry.1);
      assert dictionary.entries[..n] == dictionary.entries[..n - 1] + [entry];
    }
  }

  /** A member goes out as a text that names it: looked up among its class's names it is that member again. */
  lemma MembersGoOutByName(schema: Schema, name: string, member: string)
    requires IsMember(schema, name, member)
    ensures
      var wire := ToWire(Member(name, member));
      wire.Text? && Lookup(name, schema.enums[name], wire.text) == Success(Member(name, member))
  {
  }

  /** A tuple goes out as the list of the same items would. */
  lemma TuplesGoOutAsLists(items: seq<Value>)
    ensures ToWire(Items(items, true)) == ToWire(Items(items, false))
    ensures ToWire(Items(items, true)).Items? && |ToWire(Items(items, true)).items| == |items|
    ensures forall i :: 0 <= i < |items| ==> ToWire(Items(items, true)).items[i] == ToWire(items[i])
  {
  }

  // ----- Keys that coincide -----

  /** The pair at `i` is this one, and the last under its key. */
  predicate IsLast(pairs: seq<(Value, Value)>, i: nat, pair: (Value, Value)) {
    i < |pairs| && pairs[i] == pair && forall j :: i < j < |pairs| ==> pairs[j].0 != pair.0
  }

  ghost predicate AssignedLast(pairs: seq<(Value, Value)>, pair: (Value, Value)) {
    exists i: nat :: IsLast(pairs, i, pair)
  }

  /**
    The dictionary that assigning the pairs one after another makes: each key once, in the order
    in which the keys first come, with the value assigned to it last.
  */
  ghost predicate Assigned(pairs: seq<(Value, Value)>, made: seq<(Value, Value)>) {
    && DistinctKeys(made)
    && (forall k :: 0 <= k < |made| ==> AssignedLast(pairs, made[k]))
    && (forall i :: 0 <= i < |pairs| ==> KeyAt(made, pairs[i].0) < |made|)
    && (forall k, l :: 0 <= k < l < |made| ==> KeyAt(pairs, made[k].0) < KeyAt(pairs, made[l].0))
  }

  lemma FirstPlaceStays(pairs: seq<(Value, Value)>, pair: (Value, Value), key: Value)
    ensures KeyAt(pairs + [pair], key) ==
            if KeyAt(pairs, key) < |pairs| then KeyAt(pairs, key)
            else if pair.0 == key then |pairs| else |pairs| + 1
  {
    assert (pairs + [pair])[..|pairs|] == pairs;
  }

  lemma AssigningOnce(pairs: seq<(Value, Value)>, made: seq<(Value, Value)>, key: Value, value: Value)
    requires Assigned(pairs, made)
    ensures DistinctKeys(Put(made, key, value))
    ensures forall i :: 0 <= i < |pairs| ==> KeyAt(Put(made, key, value), pairs[i].0) < |Put(made, key, value)|
    ensures KeyAt(Put(made, key, value), key) < |Put(made, key, value)|
  {
    var longer := Put(made, key, value);
    forall i | 0 <= i < |pairs| ensures KeyAt(longer, pairs[i].0) < |longer| {
      var k := KeyAt(made, pairs[i].0);
      assert longer[k].0 == pairs[i].0;
    }
    var k := KeyAt(made, key);
    assert longer[k].0 == key;
  }

  lemma LastUnderTheirKeys(pairs: seq<(Value, Value)>, made: seq<(Value, Value)>, key: Value, value: Value)
    requires Assigned(pairs, made)
    ensures forall k :: 0 <= k < |Put(made, key, value)| ==>
              AssignedLast(pairs + [(key, value)], Put(made, key, value)[k])
  {
    var more, longer := pairs + [(key, value)], Put(made, key, value);
    forall k | 0 <= k < |longer| ensures AssignedLast(more, longer[k]) {
      if longer[k].0 == key {
        assert longer[k] == (key, value);
        assert IsLast(more, |pairs|, longer[k]);
      } else {
        assert longer[k] == made[k] && AssignedLast(pairs, made[k]);
        var i: nat :| IsLast(pairs, i, made[k]);
        assert IsLast(more, i, longer[k]);
      }
    }
  }

  lemma FirstPlacesAscend(pairs: seq<(Value, Value)>, made: seq<(Value, Value)>, key: Value, value: Value)
    requires Assigned(pairs, made)
    ensures
      var more, longer := pairs + [(key, value)], Put(made, key, value);
      forall k, l :: 0 <= k < l < |longer| ==> KeyAt(more, longer[k].0) < KeyAt(more, longer[l].0)
  {
    var more, longer := pairs + [(key, value)], Put(made, key, value);
    forall k, l | 0 <= k < l < |longer| ensures KeyAt(more, longer[k].0) < KeyAt(more, longer[l].0) {
      FirstPlaceStays(pairs, (key, value), longer[k].0);
      FirstPlaceStays(pairs, (key, value), longer[l].0);
      PresentBefore(pairs, made, k);
      if l < |made| {
        PresentBefore(pairs, made, l);
      }
    }
  }

  lemma PresentBefore(pairs: seq<(Value, Value)>, made: seq<(Value, Value)>, k: nat)
    requires Assigned(pairs, made) && k < |made|
    ensures KeyAt(pairs, made[k].0) < |pairs|
  {
    assert AssignedLast(pairs, made[k]);
    var i: nat :| IsLast(pairs, i, made[k]);
    assert pairs[i].0 == made[k].0;
  }

  lemma AssigningOneMore(pairs: seq<(Value, Value)>, made: seq<(Value, Value)>, key: Value, value: Value)
    requires Assigned(pairs, made)
    ensures Assigned(pairs + [(key, value)], Put(made, key, value))
  {
    hide KeyAt, Put, DistinctKeys;
    AssigningOnce(pairs, made, key, value);
    LastUnderTheirKeys(pairs, made, key, value);
    FirstPlacesAscend(pairs, made, key, value);
  }

  lemma NothingAssigned()
    ensures Assigned([], [])
  {
  }

  /** Keys that become the same on the wire leave one entry, with the last of their values. */
  lemma {:induction false} EncodedKeysAreAssigned(dictionary: Value, n: nat) returns (pairs: seq<(Value, Value)>)
    requires dictionary.Entries? && n <= |dictionary.entries|
    ensures |pairs| == n && Assigned(pairs, ToWireEntries(dictionary, n))
    ensures forall i :: 0 <= i < n ==> pairs[i] == (ToWire(dictionary.entries[i].0), ToWire(dictionary.entries[i].1))
    decreases n
  {
    hide ToWire, Put, Assigned;
    pairs := [];
    if n == 0 {
      NothingAssigned();
    } else {
      var before := EncodedKeysAreAssigned(dictionary, n - 1);
      var entry := dictionary.entries[n - 1];
      AssigningOneMore(before, ToWireEntries(dictionary, n - 1), ToWire(entry.0), ToWire(entry.1));
      pairs := before + [(ToWire(entry.0), ToWire(entry.1))];
    }
  }

  /** Keys that decode to the same value leave one entry, with the last of their values. */
  lemma {:induction false} DecodedKeysAreAssigned(
      schema: Schema, keyType: Type, valueType: Type, dictionary: Value, n: nat) returns (pairs: seq<(Value, Value)>)
    requires dictionary.Entries? && n <= |dictionary.entries|
    requires FromWireEntries(schema, keyType, valueType, dictionary, n).Success?
    ensures |pairs| == n && Assigned(pairs, FromWireEntries(schema, keyType, valueType, dictionary, n).value)
    ensures forall i :: 0 <= i < n ==>
              && FromWireValue(schema, keyType, dictionary.entries[i].0) == Success(pairs[i].0)
              && FromWireValue(schema, valueType, dictionary.entries[i].1) == Success(pairs[i].1)
    decreases n
  {
    hide FromWireValue, Put, Assigned;
    pairs := [];
    if n == 0 {
      NothingAssigned();
    } else {
      var before := DecodedKeysAreAssigned(schema, keyType, valueType, dictionary, n - 1);
      var entry := dictionary.entries[n - 1];
      var key, value := FromWireValue(schema, keyType, entry.0).value, FromWireValue(schema, valueType, entry.1).value;
      AssigningOneMore(before, FromWireEntries(schema, keyType, valueType, dictionary, n - 1).value, key, value);
      pairs := before + [(key, value)];
    }
  }
}
