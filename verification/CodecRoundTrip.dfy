/** Decoding what was encoded returns the same value, and enums decode alike by name and by number. */
module CodecRoundTrip {

  import opened Wrappers
  import opened Codec

  // ----- Well-typed values -----

  predicate DistinctNames(fields: seq<Field>) {
    forall i, j :: 0 <= i < j < |fields| ==> fields[i].name != fields[j].name
  }

  /** A dataclass cannot declare one field twice. */
  predicate WellFormed(schema: Schema) {
    forall name <- schema.messages :: DistinctNames(schema.messages[name])
  }

  predicate IsMember(schema: Schema, name: string, member: string) {
    name in schema.enums && Lookup(name, schema.enums[name], member) == Success(Member(name, member))
  }

  /** Only scalars and enum members are hashable, so only they can be keys. */
  predicate IsKeyType(t: Type) {
    t.Scalar? || t.EnumRef?
  }

  /** A value of a type: any field, item or entry may be absent, at any depth. */
  predicate Fits(schema: Schema, t: Type, value: Value)
    decreases value
  {
    value.Nothing? ||
    match t
    case Scalar(isFloat) =>
      value.Float? || (!isFloat && (value.Text? || value.Integer? || value.Truth? || value.Bytes?))
    case EnumRef(name) => value.Member? && value.enumName == name && IsMember(schema, name, value.member)
    case MsgRef(name) => value.Record? && value.messageName == name && FitsMessage(schema, value)
    case ListOf(elem) =>
      value.Items? && !value.isTuple && forall i :: 0 <= i < |value.items| ==> Fits(schema, elem, value.items[i])
    case MapOf(keyType, valueType) =>
      && value.Entries? && DistinctKeys(value.entries) && IsKeyType(keyType)
      && forall i :: 0 <= i < |value.entries| ==>
           Fits(schema, keyType, value.entries[i].0) && Fits(schema, valueType, value.entries[i].1)
  }

  predicate FitsMessage(schema: Schema, record: Value)
    requires record.Record?
    decreases record, 0
  {
    && record.messageName in schema.messages
    && var fields := schema.messages[record.messageName];
    && |record.fields| == |fields|
    && forall i :: 0 <= i < |fields| ==>
         record.fields[i].0 == fields[i].name && Fits(schema, fields[i].fieldType, record.fields[i].1)
  }

  // ----- Enums -----

  lemma {:induction false} FirstNameHasTheNumber(members: seq<(string, int)>, name: string, number: int)
    requires NumberOf(members, name) == Some(number)
    ensures FirstName(members, number).Some? && LastName(members, number).Some?
  {
    if members[0].0 != name {
      FirstNameHasTheNumber(members[1..], name, number);
    }
  }

  predicate DistinctMemberNames(members: seq<(string, int)>) {
    forall i, j :: 0 <= i < j < |members| ==> members[i].0 != members[j].0
  }

  lemma {:induction false} NumberOfOwnName(members: seq<(string, int)>, k: nat)
    requires DistinctMemberNames(members) && k < |members|
    ensures NumberOf(members, members[k].0) == Some(members[k].1)
  {
    if k > 0 {
      assert members[0].0 != members[k].0;
      NumberOfOwnName(members[1..], k - 1);
    }
  }

  lemma {:induction false} LastNameIsDeclared(members: seq<(string, int)>, number: int) returns (k: nat)
    requires LastName(members, number).Some?
    ensures k < |members| && members[k] == (LastName(members, number).value, number)
  {
    if LastName(members[1..], number).Some? {
      var below := LastNameIsDeclared(members[1..], number);
      k := below + 1;
    } else {
      k := 0;
    }
  }

  /** A member's name and its number decode to the same member object, even when names share a number. */
  lemma NameAndNumberAgree(schema: Schema, enumName: string, name: string, number: int)
    requires enumName in schema.enums && DistinctMemberNames(schema.enums[enumName])
    requires NumberOf(schema.enums[enumName], name) == Some(number)
    ensures FromWireEnum(schema, enumName, Integer(number)) == FromWireEnum(schema, enumName, Text(name))
    ensures FromWireEnum(schema, enumName, Text(name)).Success?
  {
    var members := schema.enums[enumName];
    FirstNameHasTheNumber(members, name, number);
    var k := LastNameIsDeclared(members, number);
    NumberOfOwnName(members, k);
  }

  /** A name decodes to the member of that name just when no earlier member has its number. */
  lemma {:induction false} DecodedUnderOwnName(members: seq<(string, int)>, enumName: string, k: nat)
    requires DistinctMemberNames(members) && k < |members|
    ensures Lookup(enumName, members, members[k].0) == Success(Member(enumName, members[k].0))
       <==> forall j :: 0 <= j < k ==> members[j].1 != members[k].1
  {
    NumberOfOwnName(members, k);
    var first := FirstNameIsEarliest(members, members[k].1, k);
    assert first < k ==> members[first].0 != members[k].0;
  }

  lemma {:induction false} FirstNameIsEarliest(members: seq<(string, int)>, number: int, k: nat) returns (first: nat)
    requires k < |members| && members[k].1 == number
    ensures first <= k && FirstName(members, number) == Some(members[first].0) && members[first].1 == number
    ensures forall j :: 0 <= j < first ==> members[j].1 != number
  {
    if members[0].1 == number {
      first := 0;
    } else {
      var below := FirstNameIsEarliest(members[1..], number, k - 1);
      first := below + 1;
      assert forall j :: 0 < j < first ==> members[j] == members[1..][j - 1];
    }
  }

  // ----- Dictionaries -----

  lemma KeyIsAt(entries: seq<(Value, Value)>, k: nat)
    requires DistinctKeys(entries) && k < |entries|
    ensures KeyAt(entries, entries[k].0) == k
  {
    var found := KeyAt(entries, entries[k].0);
    assert found <= k;
  }

  lemma NewKeyGoesLast(entries: seq<(Value, Value)>, key: Value, value: Value)
    requires forall i :: 0 <= i < |entries| ==> entries[i].0 != key
    ensures Put(entries, key, value) == entries + [(key, value)]
  {
  }

  /** Two keys of one hashable type are the same key on the wire only when they are the same key. */
  lemma KeysStayDistinct(schema: Schema, t: Type, a: Value, b: Value)
    requires IsKeyType(t) && Fits(schema, t, a) && Fits(schema, t, b) && ToWire(a) == ToWire(b)
    ensures a == b
  {
  }

  lemma {:induction false} EntriesOnTheWire(schema: Schema, t: Type, dictionary: Value, n: nat)
    requires dictionary.Entries? && n <= |dictionary.entries| && DistinctKeys(dictionary.entries) && IsKeyType(t)
    requires forall i :: 0 <= i < |dictionary.entries| ==> Fits(schema, t, dictionary.entries[i].0)
    ensures
      var wire := ToWireEntries(dictionary, n);
      && |wire| == n
      && forall i :: 0 <= i < n ==> wire[i] == (ToWire(dictionary.entries[i].0), ToWire(dictionary.entries[i].1))
  {
    hide Fits, ToWire;
    if n > 0 {
      EntriesOnTheWire(schema, t, dictionary, n - 1);
      var before, key := ToWireEntries(dictionary, n - 1), dictionary.entries[n - 1].0;
      forall i | 0 <= i < n - 1 ensures before[i].0 != ToWire(key) {
        if ToWire(dictionary.entries[i].0) == ToWire(key) {
          KeysStayDistinct(schema, t, dictionary.entries[i].0, key);
        }
      }
    }
  }

  lemma {:induction false} FieldsOnTheWire(record: Value, n: nat)
    requires record.Record? && n <= |record.fields|
    requires forall i, j :: 0 <= i < j < |record.fields| ==> record.fields[i].0 != record.fields[j].0
    ensures
      var wire := ToWireFields(record, n);
      && |wire| == n
      && forall i :: 0 <= i < n ==> wire[i] == (Text(record.fields[i].0), ToWire(record.fields[i].1))
  {
    hide ToWire;
    if n > 0 {
      FieldsOnTheWire(record, n - 1);
    }
  }

  // ----- The round trip -----

  /** Decoding the wire form of a well-typed value gives the value back, whatever it nests. */
  lemma {:induction false} RoundTrip(schema: Schema, t: Type, value: Value)
    requires WellFormed(schema) && Fits(schema, t, value)
    ensures FromWireValue(schema, t, ToWire(value)) == Success(value)
    decreases value, 2, 0
  {
    if value.Items? {
      ItemsRoundTrip(schema, t.elem, value, |value.items|);
      assert value.items[..|value.items|] == value.items;
    } else if value.Record? {
      MessageRoundTrip(schema, value);
    } else if value.Entries? {
      EntriesOnTheWire(schema, t.key, value, |value.entries|);
      EntriesRoundTrip(schema, t.key, t.value, value, |value.entries|);
      assert value.entries[..|value.entries|] == value.entries;
    }
  }

  lemma {:induction false} ItemsRoundTrip(schema: Schema, elem: Type, list: Value, n: nat)
    requires WellFormed(schema) && list.Items? && n <= |list.items|
    requires forall i :: 0 <= i < |list.items| ==> Fits(schema, elem, list.items[i])
    ensures FromWireItems(schema, elem, ToWire(list), n) == Success(list.items[..n])
    decreases list, 0, n
  {
    hide Fits, FromWireValue, WellFormed;
    if n > 0 {
      ItemsRoundTrip(schema, elem, list, n - 1);
      RoundTrip(schema, elem, list.items[n - 1]);
      assert list.items[..n] == list.items[..n - 1] + [list.items[n - 1]];
    }
  }

  lemma {:induction false} EntriesRoundTrip(schema: Schema, keyType: Type, valueType: Type, dictionary: Value, n: nat)
    requires WellFormed(schema) && dictionary.Entries? && n <= |dictionary.entries| && DistinctKeys(dictionary.entries)
    requires forall i :: 0 <= i < |dictionary.entries| ==>
               Fits(schema, keyType, dictionary.entries[i].0) && Fits(schema, valueType, dictionary.entries[i].1)
    requires
      var wire := ToWireEntries(dictionary, |dictionary.entries|);
      && |wire| == |dictionary.entries|
      && forall i :: 0 <= i < |wire| ==> wire[i] == (ToWire(dictionary.entries[i].0), ToWire(dictionary.entries[i].1))
    ensures FromWireEntries(schema, keyType, valueType, ToWire(dictionary), n) == Success(dictionary.entries[..n])
    decreases dictionary, 0, n
  {
    hide Fits, FromWireValue, WellFormed, ToWireEntries, Put;
    if n > 0 {
      NewKeyGoesLast(dictionary.entries[..n - 1], dictionary.entries[n - 1].0, dictionary.entries[n - 1].1);
      EntriesRoundTrip(schema, keyType, valueType, dictionary, n - 1);
      RoundTrip(schema, keyType, dictionary.entries[n - 1].0);
      RoundTrip(schema, valueType, dictionary.entries[n - 1].1);
      assert dictionary.entries[..n] == dictionary.entries[..n - 1] + [dictionary.entries[n - 1]];
    }
  }

  /** A message of the schema survives encoding and decoding. */
  lemma {:induction false} MessageRoundTrip(schema: Schema, record: Value)
    requires WellFormed(schema) && record.Record? && FitsMessage(schema, record)
    ensures FromWireMessage(schema, record.messageName, ToWire(record)) == Success(record)
    decreases record, 1, 0
  {
    hide Fits, FromWireValue;
    var fields := schema.messages[record.messageName];
    assert DistinctNames(fields);
    FieldsOnTheWire(record, |fields|);
    FieldsRoundTrip(schema, fields, record, |fields|);
    assert record.fields[..|fields|] == record.fields;
  }

  lemma {:induction false} FieldsRoundTrip(schema: Schema, fields: seq<Field>, record: Value, n: nat)
    requires WellFormed(schema) && record.Record? && n <= |fields| == |record.fields| && DistinctNames(fields)
    requires forall i :: 0 <= i < |fields| ==>
               record.fields[i].0 == fields[i].name && Fits(schema, fields[i].fieldType, record.fields[i].1)
    requires
      var wire := ToWireFields(record, |fields|);
      && |wire| == |fields|
      && forall i :: 0 <= i < |wire| ==> wire[i] == (Text(fields[i].name), ToWire(record.fields[i].1))
    ensures FromWireFields(schema, fields, ToWire(record), n) == Success(record.fields[..n])
    decreases record, 0, n
  {
    hide Fits, FromWireValue, WellFormed, ToWireFields;
    if n > 0 {
      FieldsRoundTrip(schema, fields, record, n - 1);
      KeyIsAt(ToWireFields(record, |fields|), n - 1);
      RoundTrip(schema, fields[n - 1].fieldType, record.fields[n - 1].1);
      assert FromWireField(schema, fields[n - 1], ToWire(record)) == Success(record.fields[n - 1].1);
      assert record.fields[..n] == record.fields[..n - 1] + [record.fields[n - 1]];
    }
  }

  /** Two messages with one wire form are one message. */
  lemma WireFormIsInjective(schema: Schema, a: Value, b: Value)
    requires WellFormed(schema) && a.Record? && b.Record? && FitsMessage(schema, a) && FitsMessage(schema, b)
    requires a.messageName == b.messageName
    ensures ToWire(a) == ToWire(b) <==> a == b
  {
    hide *;
    MessageRoundTrip(schema, a);
    MessageRoundTrip(schema, b);
  }

  // ----- Payloads that decode alike -----

  /** `payload.get(name)`. */
  function Get(payload: Value, name: string): Value
    requires payload.Entries?
  {
    var k := KeyAt(payload.entries, Text(name));
    if k < |payload.entries| then payload.entries[k].1 else Nothing
  }

  /** Only the named fields are read: order, unknown keys and explicit `None`s make no difference. */
  lemma FieldsAreReadByName(schema: Schema, name: string, payload: Value, other: Value)
    requires payload.Entries? && other.Entries?
    requires name in schema.messages ==>
               forall i :: 0 <= i < |schema.messages[name]| ==>
                 Get(payload, schema.messages[name][i].name) == Get(other, schema.messages[name][i].name)
    ensures FromWireMessage(schema, name, payload) == FromWireMessage(schema, name, other)
  {
    if name in schema.messages {
      SameReadings(schema, schema.messages[name], payload, other, |schema.messages[name]|);
    }
  }

  lemma FieldIsReadByName(schema: Schema, field: Field, payload: Value)
    requires payload.Entries?
    ensures FromWireField(schema, field, payload) == FromWireValue(schema, field.fieldType, Get(payload, field.name))
  {
    assert FromWireValue(schema, field.fieldType, Nothing) == Success(Nothing);
  }

  lemma {:induction false} SameReadings(schema: Schema, fields: seq<Field>, payload: Value, other: Value, n: nat)
    requires payload.Entries? && other.Entries? && n <= |fields|
    requires forall i :: 0 <= i < |fields| ==> Get(payload, fields[i].name) == Get(other, fields[i].name)
    ensures FromWireFields(schema, fields, payload, n) == FromWireFields(schema, fields, other, n)
    decreases n
  {
    hide FromWireValue, FromWireField, Get;
    if n > 0 {
      SameReadings(schema, fields, payload, other, n - 1);
      FieldIsReadByName(schema, fields[n - 1], payload);
      FieldIsReadByName(schema, fields[n - 1], other);
    }
  }

  // ----- The decoding loop -----

  lemma {:induction false} FailureStands(schema: Schema, fields: seq<Field>, payload: Value, i: nat, n: nat)
    requires payload.Entries? && i <= n <= |fields| && FromWireFields(schema, fields, payload, i).Failure?
    ensures FromWireFields(schema, fields, payload, n) == FromWireFields(schema, fields, payload, i)
    decreases n
  {
    if i < n {
      FailureStands(schema, fields, payload, i, n - 1);
    }
  }

  /** The source's loop: keyword arguments by field name, then the dataclass built from them. */
  method DecodeMessage(schema: Schema, name: string, payload: Value) returns (r: Result<Value, Problem>)
    requires WellFormed(schema)
    ensures r == FromWireMessage(schema, name, payload)
  {
    if name !in schema.messages {
      return Failure(UnsupportedMessage);
    }
    if payload.Record? && payload.messageName == name {
      return Success(payload);
    }
    if !payload.Entries? {
      return Failure(NotAMapping);
    }
    var fields := schema.messages[name];
    var arguments: map<string, Value> := map[];
    for i := 0 to |fields|
      invariant FromWireFields(schema, fields, payload, i).Success?
      invariant forall j :: 0 <= j < i ==> fields[j].name in arguments
      invariant forall j :: 0 <= j < i ==>
                  arguments[fields[j].name] == FromWireFields(schema, fields, payload, i).value[j].1
    {
      var field := FromWireField(schema, fields[i], payload);
      if field.Failure? {
        FailureStands(schema, fields, payload, i + 1, |fields|);
        return Failure(field.error);
      }
      assert DistinctNames(fields);
      arguments := arguments[fields[i].name := field.value];
    }
    var decoded := seq(|fields|, i requires 0 <= i < |fields| => (fields[i].name, arguments[fields[i].name]));
    assert decoded == FromWireFields(schema, fields, payload, |fields|).value;
    r := Success(Record(name, decoded));
  }
}
