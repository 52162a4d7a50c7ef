/**
  Everything that decodes: a value may be spelled in several ways on the wire, and every
  spelling decodes to it; what decodes is exactly what is readable, and comes out well typed.
*/
module CodecSpellings {

  import opened Wrappers
  import opened Codec
  import opened CodecRoundTrip

  // ----- Spellings -----

  /** A dictionary of members declares each name once. */
  predicate EnumsAreDictionaries(schema: Schema) {
    forall name <- schema.enums :: DistinctMemberNames(schema.enums[name])
  }

  /** The number a wire value is in Python, where a boolean is one. */
  function WholeNumber(wire: Value): Option<int> {
    match wire
    case Integer(n) => Some(n)
    case Truth(b) => Some(if b then 1 else 0)
    case _ => None
  }

  /** Any name and any number that the member is declared under. */
  predicate SpellsMember(members: seq<(string, int)>, wire: Value, member: string) {
    && NumberOf(members, member).Some?
    && (wire.Text? ==> NumberOf(members, wire.text) == NumberOf(members, member))
    && (!wire.Text? ==> WholeNumber(wire) == NumberOf(members, member))
  }

  /** What may stand on the wire for a value: numbers for numbers, any spelling of a member, objects as they are. */
  predicate Spells(schema: Schema, t: Type, wire: Value, value: Value)
    decreases value, 1
  {
    if value.Nothing? || wire.Nothing? then value == wire
    else
      match t
      case Scalar(isFloat) =>
        if isFloat then
          value.Float? && (wire == value || (WholeNumber(wire).Some? && WholeNumber(wire).value as real == value.x))
        else wire == value
      case EnumRef(name) =>
        value.Member? && name in schema.enums && (wire == value || SpellsMember(schema.enums[name], wire, value.member))
      case MsgRef(name) => value.Record? && (wire == value || SpellsMessage(schema, wire, value))
      case ListOf(elem) =>
        && value.Items? && wire.Items? && |wire.items| == |value.items|
        && forall i :: 0 <= i < |value.items| ==> Spells(schema, elem, wire.items[i], value.items[i])
      case MapOf(keyType, valueType) =>
        && value.Entries? && wire.Entries? && |wire.entries| == |value.entries|
        && forall i :: 0 <= i < |value.entries| ==>
             && Spells(schema, keyType, wire.entries[i].0, value.entries[i].0)
             && Spells(schema, valueType, wire.entries[i].1, value.entries[i].1)
  }

  /** A dictionary spells a message by its fields' names, in any order and among any others. */
  predicate SpellsMessage(schema: Schema, wire: Value, record: Value)
    requires record.Record?
    decreases record, 0
  {
    && wire.Entries? && record.messageName in schema.messages
    && |record.fields| == |schema.messages[record.messageName]|
    && forall i :: 0 <= i < |record.fields| ==>
         var field := schema.messages[record.messageName][i];
         Spells(schema, field.fieldType, Get(wire, field.name), record.fields[i].1)
  }

  lemma SpelledMemberDecodes(schema: Schema, name: string, wire: Value, member: string)
    requires EnumsAreDictionaries(schema) && IsMember(schema, name, member)
    requires SpellsMember(schema.enums[name], wire, member)
    ensures FromWireEnum(schema, name, wire) == Success(Member(name, member))
  {
    var members := schema.enums[name];
    var number := NumberOf(members, member).value;
    NameAndNumberAgree(schema, name, member, number);
    if wire.Truth? {
      assert FromWireEnum(schema, name, wire) == FromWireEnum(schema, name, Integer(number));
    }
  }

  /** Every spelling of a well-typed value decodes to it, at any depth. */
  lemma {:induction false} EverySpellingDecodes(schema: Schema, t: Type, wire: Value, value: Value)
    requires EnumsAreDictionaries(schema) && Fits(schema, t, value) && Spells(schema, t, wire, value)
    ensures FromWireValue(schema, t, wire) == Success(value)
    decreases value, 1, 0
  {
    hide SpellsMember, IsMember;
    if value.Nothing? {
    } else {
      match t
      case Scalar(_) =>
      case EnumRef(name) =>
        if wire != value {
          SpelledMemberDecodes(schema, name, wire, value.member);
          NotAnObject(schema.enums[name], wire, value.member);
        }
      case MsgRef(name) =>
        if wire != value {
          FieldSpellingsDecode(schema, wire, value, |value.fields|);
          assert value.fields[..|value.fields|] == value.fields;
        }
      case ListOf(elem) =>
        ItemSpellingsDecode(schema, elem, wire, value, |value.items|);
        assert value.items[..|value.items|] == value.items;
      case MapOf(keyType, valueType) =>
        EntrySpellingsDecode(schema, keyType, valueType, wire, value, |value.entries|);
        assert value.entries[..|value.entries|] == value.entries;
    }
  }

  lemma NotAnObject(members: seq<(string, int)>, wire: Value, member: string)
    requires SpellsMember(members, wire, member)
    ensures !wire.Nothing?
  {
  }

  lemma {:induction false} ItemSpellingsDecode(schema: Schema, elem: Type, wire: Value, list: Value, n: nat)
    requires EnumsAreDictionaries(schema) && list.Items? && wire.Items? && n <= |list.items| == |wire.items|
    requires forall i :: 0 <= i < |list.items| ==>
               Fits(schema, elem, list.items[i]) && Spells(schema, elem, wire.items[i], list.items[i])
    ensures FromWireItems(schema, elem, wire, n) == Success(list.items[..n])
    decreases list, 0, n
  {
    hide Fits, Spells, FromWireValue, EnumsAreDictionaries;
    if n > 0 {
      ItemSpellingsDecode(schema, elem, wire, list, n - 1);
      EverySpellingDecodes(schema, elem, wire.items[n - 1], list.items[n - 1]);
      assert list.items[..n] == list.items[..n - 1] + [list.items[n - 1]];
    }
  }

  lemma {:induction false} EntrySpellingsDecode(
      schema: Schema, keyType: Type, valueType: Type, wire: Value, dictionary: Value, n: nat)
    requires EnumsAreDictionaries(schema) && dictionary.Entries? && wire.Entries?
    requires n <= |dictionary.entries| == |wire.entries| && DistinctKeys(dictionary.entries)
    requires forall i :: 0 <= i < |dictionary.entries| ==>
               && Fits(schema, keyType, dictionary.entries[i].0) && Fits(schema, valueType, dictionary.entries[i].1)
               && Spells(schema, keyType, wire.entries[i].0, dictionary.entries[i].0)
               && Spells(schema, valueType, wire.entries[i].1, dictionary.entries[i].1)
    ensures FromWireEntries(schema, keyType, valueType, wire, n) == Success(dictionary.entries[..n])
    decreases dictionary, 0, n
  {
    hide Fits, Spells, FromWireValue, EnumsAreDictionaries, Put;
    if n > 0 {
      var entry := dictionary.entries[n - 1];
      NewKeyGoesLast(dictionary.entries[..n - 1], entry.0, entry.1);
      EntrySpellingsDecode(schema, keyType, valueType, wire, dictionary, n - 1);
      EverySpellingDecodes(schema, keyType, wire.entries[n - 1].0, entry.0);
      EverySpellingDecodes(schema, valueType, wire.entries[n - 1].1, entry.1);
      assert dictionary.entries[..n] == dictionary.entries[..n - 1] + [entry];
    }
  }

  lemma {:induction false} FieldSpellingsDecode(schema: Schema, wire: Value, record: Value, n: nat)
    requires EnumsAreDictionaries(schema) && record.Record? && FitsMessage(schema, record)
    requires SpellsMessage(schema, wire, record) && n <= |record.fields|
    ensures FromWireFields(schema, schema.messages[record.messageName], wire, n) == Success(record.fields[..n])
    decreases record, 0, n
  {
    hide Fits, Spells, FromWireValue, EnumsAreDictionaries, Get;
    if n > 0 {
      var field := schema.messages[record.messageName][n - 1];
      FieldSpellingsDecode(schema, wire, record, n - 1);
      EverySpellingDecodes(schema, field.fieldType, Get(wire, field.name), record.fields[n - 1].1);
      FieldIsReadByName(schema, field, wire);
      assert record.fields[..n] == record.fields[..n - 1] + [record.fields[n - 1]];
    }
  }

  // ----- What is readable -----

  predicate IsPlain(value: Value) {
    value.Text? || value.Integer? || value.Truth? || value.Float? || value.Bytes?
  }

  predicate ReadableMember(schema: Schema, name: string, wire: Value, strict: bool)
    requires name in schema.enums
  {
    var members := schema.enums[name];
    if wire.Member? then wire.enumName == name && (strict ==> IsMember(schema, name, wire.member))
    else if wire.Text? then exists k :: 0 <= k < |members| && members[k].0 == wire.text
    else
      var number := WholeNumber(wire);
      number.Some? && exists k :: 0 <= k < |members| && members[k].1 == number.value
  }

  /**
    A wire value that the schema can make sense of. With `strict`, scalars are plain values,
    objects that stand for themselves are well typed, and keys are of hashable types.
  */
  predicate Readable(schema: Schema, t: Type, wire: Value, strict: bool)
    decreases wire, 1
  {
    wire.Nothing? ||
    match t
    case Scalar(isFloat) =>
      if isFloat then wire.Float? || WholeNumber(wire).Some? else strict ==> IsPlain(wire)
    case EnumRef(name) => name in schema.enums && ReadableMember(schema, name, wire, strict)
    case MsgRef(name) =>
      && name in schema.messages
      && if wire.Record? then wire.messageName == name && (strict ==> FitsMessage(schema, wire))
         else wire.Entries? && ReadableFields(schema, schema.messages[name], wire, strict)
    case ListOf(elem) =>
      wire.Items? && forall i :: 0 <= i < |wire.items| ==> Readable(schema, elem, wire.items[i], strict)
    case MapOf(keyType, valueType) =>
      && wire.Entries? && (strict ==> IsKeyType(keyType))
      && forall i :: 0 <= i < |wire.entries| ==>
           Readable(schema, keyType, wire.entries[i].0, strict) &&
             Readable(schema, valueType, wire.entries[i].1, strict)
  }

  predicate ReadableFields(schema: Schema, fields: seq<Field>, wire: Value, strict: bool)
    requires wire.Entries?
    decreases wire, 0
  {
    forall i :: 0 <= i < |fields| ==>
      var k := KeyAt(wire.entries, Text(fields[i].name));
      k < |wire.entries| ==> Readable(schema, fields[i].fieldType, wire.entries[k].1, strict)
  }

  lemma {:induction false} DeclaredNames(members: seq<(string, int)>, name: string)
    ensures NumberOf(members, name).Some? <==> exists k :: 0 <= k < |members| && members[k].0 == name
    ensures NumberOf(members, name).Some? ==> FirstName(members, NumberOf(members, name).value).Some?
  {
    if |members| > 0 {
      DeclaredNames(members[1..], name);
      assert forall k :: 0 <= k < |members| - 1 ==> members[1..][k] == members[k + 1];
    }
  }

  lemma {:induction false} DeclaredNumbers(members: seq<(string, int)>, number: int)
    ensures LastName(members, number).Some? <==> exists k :: 0 <= k < |members| && members[k].1 == number
    ensures LastName(members, number).Some? ==>
              exists k :: 0 <= k < |members| && members[k].0 == LastName(members, number).value
  {
    if |members| > 0 {
      DeclaredNumbers(members[1..], number);
      assert forall k :: 0 <= k < |members| - 1 ==> members[1..][k] == members[k + 1];
      if LastName(members[1..], number).Some? {
        var k :| 0 <= k < |members| - 1 && members[1..][k].0 == LastName(members[1..], number).value;
        assert members[k + 1].0 == LastName(members, number).value;
      }
    }
  }

  lemma FoundMemberFits(schema: Schema, name: string, text: string)
    requires name in schema.enums && Lookup(name, schema.enums[name], text).Success?
    requires DistinctMemberNames(schema.enums[name])
    ensures Lookup(name, schema.enums[name], text).value.Member?
    ensures Lookup(name, schema.enums[name], text).value.enumName == name
    ensures IsMember(schema, name, Lookup(name, schema.enums[name], text).value.member)
  {
    var members := schema.enums[name];
    var number := NumberOf(members, text).value;
    DeclaredNames(members, text);
    var j :| 0 <= j < |members| && members[j].0 == text;
    NumberOfOwnName(members, j);
    var first := FirstNameIsEarliest(members, number, j);
    NumberOfOwnName(members, first);
  }

  lemma EnumsReadWhenDeclared(schema: Schema, name: string, wire: Value, strict: bool)
    requires EnumsAreDictionaries(schema) && !wire.Nothing?
    ensures Readable(schema, EnumRef(name), wire, false) <==> FromWireEnum(schema, name, wire).Success?
    ensures strict && Readable(schema, EnumRef(name), wire, true) ==>
              FromWireEnum(schema, name, wire).Success? &&
                Fits(schema, EnumRef(name), FromWireEnum(schema, name, wire).value)
  {
    if name in schema.enums {
      var members := schema.enums[name];
      if wire.Text? {
        DeclaredNames(members, wire.text);
        if FromWireEnum(schema, name, wire).Success? {
          FoundMemberFits(schema, name, wire.text);
        }
      } else if WholeNumber(wire).Some? {
        DeclaredNumbers(members, WholeNumber(wire).value);
        if LastName(members, WholeNumber(wire).value).Some? {
          DeclaredNames(members, LastName(members, WholeNumber(wire).value).value);
          FoundMemberFits(schema, name, LastName(members, WholeNumber(wire).value).value);
        }
      }
    }
  }

  // ----- Decoding succeeds exactly on what is readable -----

  /** A wire value decodes if and only if it is readable. */
  lemma {:induction false} DecodesJustWhenReadable(schema: Schema, t: Type, wire: Value)
    requires EnumsAreDictionaries(schema)
    ensures FromWireValue(schema, t, wire).Success? <==> Readable(schema, t, wire, false)
    decreases wire, 1, 0
  {
    hide ReadableMember, FromWireEnum, EnumsAreDictionaries;
    if !wire.Nothing? {
      match t
      case Scalar(_) =>
      case EnumRef(name) => EnumsReadWhenDeclared(schema, name, wire, false);
      case MsgRef(name) =>
        if wire.Entries? && name in schema.messages {
          FieldsDecodeJustWhenReadable(schema, schema.messages[name], wire, |schema.messages[name]|);
        }
      case ListOf(elem) =>
        if wire.Items? {
          ItemsDecodeJustWhenReadable(schema, elem, wire, |wire.items|);
        }
      case MapOf(keyType, valueType) =>
        if wire.Entries? {
          EntriesDecodeJustWhenReadable(schema, keyType, valueType, wire, |wire.entries|);
        }
    }
  }

  lemma {:induction false} ItemsDecodeJustWhenReadable(schema: Schema, elem: Type, wire: Value, n: nat)
    requires EnumsAreDictionaries(schema) && wire.Items? && n <= |wire.items|
    ensures FromWireItems(schema, elem, wire, n).Success? <==>
            forall i :: 0 <= i < n ==> Readable(schema, elem, wire.items[i], false)
    decreases wire, 0, n
  {
    hide FromWireValue, Readable, EnumsAreDictionaries;
    if n > 0 {
      ItemsDecodeJustWhenReadable(schema, elem, wire, n - 1);
      DecodesJustWhenReadable(schema, elem, wire.items[n - 1]);
    }
  }

  lemma {:induction false} EntriesDecodeJustWhenReadable(
      schema: Schema, keyType: Type, valueType: Type, wire: Value, n: nat)
    requires EnumsAreDictionaries(schema) && wire.Entries? && n <= |wire.entries|
    ensures FromWireEntries(schema, keyType, valueType, wire, n).Success? <==>
            forall i :: 0 <= i < n ==>
              Readable(schema, keyType, wire.entries[i].0, false) &&
                Readable(schema, valueType, wire.entries[i].1, false)
    decreases wire, 0, n
  {
    hide FromWireValue, Readable, EnumsAreDictionaries, Put;
    if n > 0 {
      EntriesDecodeJustWhenReadable(schema, keyType, valueType, wire, n - 1);
      DecodesJustWhenReadable(schema, keyType, wire.entries[n - 1].0);
      DecodesJustWhenReadable(schema, valueType, wire.entries[n - 1].1);
    }
  }

  lemma {:induction false} FieldsDecodeJustWhenReadable(schema: Schema, fields: seq<Field>, wire: Value, n: nat)
    requires EnumsAreDictionaries(schema) && wire.Entries? && n <= |fields|
    ensures FromWireFields(schema, fields, wire, n).Success? <==> ReadableFields(schema, fields[..n], wire, false)
    decreases wire, 0, n
  {
    hide FromWireValue, Readable, EnumsAreDictionaries;
    if n > 0 {
      FieldsDecodeJustWhenReadable(schema, fields, wire, n - 1);
      var k := KeyAt(wire.entries, Text(fields[n - 1].name));
      if k < |wire.entries| {
        DecodesJustWhenReadable(schema, fields[n - 1].fieldType, wire.entries[k].1);
      }
      assert forall i :: 0 <= i < n - 1 ==> fields[..n][i] == fields[..n - 1][i];
      assert fields[..n][n - 1] == fields[n - 1];
    }
    assert n == |fields| ==> fields[..n] == fields;
  }

  // ----- What decodes is well typed -----

  /**
    What decodes from a strictly readable value is a well-typed one, so that encoding it and
    decoding again gives it back.
  */
  lemma {:induction false} DecodedIsWellTyped(schema: Schema, t: Type, wire: Value)
    requires EnumsAreDictionaries(schema) && Readable(schema, t, wire, true)
    ensures FromWireValue(schema, t, wire).Success? && Fits(schema, t, FromWireValue(schema, t, wire).value)
    decreases wire, 1, 0
  {
    hide ReadableMember, FromWireEnum, EnumsAreDictionaries, IsMember;
    if !wire.Nothing? {
      match t
      case Scalar(_) =>
      case EnumRef(name) => EnumsReadWhenDeclared(schema, name, wire, true);
      case MsgRef(name) =>
        if wire.Entries? {
          FieldsAreWellTyped(schema, schema.messages[name], wire, |schema.messages[name]|);
        }
      case ListOf(elem) => ItemsAreWellTyped(schema, elem, wire, |wire.items|);
      case MapOf(keyType, valueType) => EntriesAreWellTyped(schema, keyType, valueType, wire, |wire.entries|);
    }
  }

  lemma {:induction false} ItemsAreWellTyped(schema: Schema, elem: Type, wire: Value, n: nat)
    requires EnumsAreDictionaries(schema) && wire.Items? && n <= |wire.items|
    requires forall i :: 0 <= i < |wire.items| ==> Readable(schema, elem, wire.items[i], true)
    ensures
      var r := FromWireItems(schema, elem, wire, n);
      r.Success? && forall i :: 0 <= i < |r.value| ==> Fits(schema, elem, r.value[i])
    decreases wire, 0, n
  {
    hide FromWireValue, Readable, EnumsAreDictionaries, Fits;
    if n > 0 {
      ItemsAreWellTyped(schema, elem, wire, n - 1);
      DecodedIsWellTyped(schema, elem, wire.items[n - 1]);
    }
  }

  lemma PutKeepsDictionary(entries: seq<(Value, Value)>, key: Value, value: Value)
    requires DistinctKeys(entries)
    ensures DistinctKeys(Put(entries, key, value))
    ensures forall i :: 0 <= i < |Put(entries, key, value)| ==>
              Put(entries, key, value)[i] in entries || Put(entries, key, value)[i] == (key, value)
  {
  }

  lemma {:induction false} EntriesAreWellTyped(schema: Schema, keyType: Type, valueType: Type, wire: Value, n: nat)
    requires EnumsAreDictionaries(schema) && wire.Entries? && n <= |wire.entries|
    requires forall i :: 0 <= i < |wire.entries| ==>
               Readable(schema, keyType, wire.entries[i].0, true) &&
                 Readable(schema, valueType, wire.entries[i].1, true)
    ensures
      var r := FromWireEntries(schema, keyType, valueType, wire, n);
      && r.Success? && DistinctKeys(r.value)
      && forall i :: 0 <= i < |r.value| ==> Fits(schema, keyType, r.value[i].0) && Fits(schema, valueType, r.value[i].1)
    decreases wire, 0, n
  {
    hide FromWireValue, Readable, EnumsAreDictionaries, Fits, Put, DistinctKeys;
    if n == 0 {
      NothingIsADictionary();
    } else {
      EntriesAreWellTyped(schema, keyType, valueType, wire, n - 1);
      var before := FromWireEntries(schema, keyType, valueType, wire, n - 1).value;
      DecodedIsWellTyped(schema, keyType, wire.entries[n - 1].0);
      DecodedIsWellTyped(schema, valueType, wire.entries[n - 1].1);
      PutKeepsDictionary(before, FromWireValue(schema, keyType, wire.entries[n - 1].0).value,
                         FromWireValue(schema, valueType, wire.entries[n - 1].1).value);
    }
  }

  lemma NothingIsADictionary()
    ensures DistinctKeys([])
  {
  }

  lemma {:induction false} FieldsAreWellTyped(schema: Schema, fields: seq<Field>, wire: Value, n: nat)
    requires EnumsAreDictionaries(schema) && wire.Entries? && n <= |fields| &&
               ReadableFields(schema, fields, wire, true)
    ensures
      var r := FromWireFields(schema, fields, wire, n);
      r.Success? && forall i :: 0 <= i < n ==> Fits(schema, fields[i].fieldType, r.value[i].1)
    decreases wire, 0, n
  {
    hide FromWireValue, Readable, EnumsAreDictionaries, Fits;
    if n > 0 {
      FieldsAreWellTyped(schema, fields, wire, n - 1);
      var k := KeyAt(wire.entries, Text(fields[n - 1].name));
      if k < |wire.entries| {
        DecodedIsWellTyped(schema, fields[n - 1].fieldType, wire.entries[k].1);
      }
      AbsentFits(schema, fields[n - 1].fieldType);
    }
  }

  lemma AbsentFits(schema: Schema, t: Type)
    ensures Fits(schema, t, Nothing)
  {
  }

  /** Decoding settles a spelling: encoding what it gave and decoding again changes nothing more. */
  lemma DecodingSettles(schema: Schema, t: Type, wire: Value)
    requires WellFormed(schema) && EnumsAreDictionaries(schema) && Readable(schema, t, wire, true)
    ensures FromWireValue(schema, t, wire).Success?
    ensures FromWireValue(schema, t, ToWire(FromWireValue(schema, t, wire).value)) == FromWireValue(schema, t, wire)
  {
    hide *;
    DecodedIsWellTyped(schema, t, wire);
    RoundTrip(schema, t, FromWireValue(schema, t, wire).value);
  }
}
