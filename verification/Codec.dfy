/**
  Messages to and from their wire form: dataclasses, enum members, lists and dictionaries
  against a schema of message and enum definitions. A Python value is a `Value`; a
  dictionary is a sequence of entries in insertion order.
*/
module Codec {

  import opened Wrappers

  datatype Type =
    | Scalar(isFloat: bool)
    | EnumRef(name: string)
    | MsgRef(name: string)
    | ListOf(elem: Type)
    | MapOf(key: Type, value: Type)

  datatype Field = Field(name: string, fieldType: Type)

  /** Enum members in declaration order, each with its wire number. */
  datatype Schema = Schema(messages: map<string, seq<Field>>, enums: map<string, seq<(string, int)>>)

  datatype Value =
    | Nothing
    | Text(text: string)
    | Integer(n: int)
    | Truth(b: bool)
    | Float(x: real)
    | Bytes(bytes: seq<bv8>)
    | Member(enumName: string, member: string)
    | Record(messageName: string, fields: seq<(string, Value)>)
    | Items(items: seq<Value>, isTuple: bool)
    | Entries(entries: seq<(Value, Value)>)

  datatype Problem =
    UnsupportedMessage | NotAMapping | NotAList | NotAFloat | UnsupportedEnum | UnsupportedMember | NotAMember

  // ----- Dictionaries -----

  predicate DistinctKeys(entries: seq<(Value, Value)>) {
    forall i, j :: 0 <= i < j < |entries| ==> entries[i].0 != entries[j].0
  }

  /** The position of a key, or the length when the key is absent. */
  function KeyAt(entries: seq<(Value, Value)>, key: Value): (k: nat)
    ensures k <= |entries|
    ensures k < |entries| ==> entries[k].0 == key
    ensures forall i :: 0 <= i < k ==> entries[i].0 != key
    decreases |entries|
  {
    if |entries| == 0 then 0
    else
      var k := KeyAt(entries[..|entries| - 1], key);
      if k < |entries| - 1 || entries[|entries| - 1].0 == key then k else |entries|
  }

  /** Assignment to a key: a key already there keeps its place, a new one goes last. */
  function Put(entries: seq<(Value, Value)>, key: Value, value: Value): seq<(Value, Value)> {
    var k := KeyAt(entries, key);
    if k < |entries| then entries[k := (key, value)] else entries + [(key, value)]
  }

  // ----- Enum classes -----

  function NumberOf(members: seq<(string, int)>, name: string): Option<int> {
    if |members| == 0 then None
    else if members[0].0 == name then Some(members[0].1)
    else NumberOf(members[1..], name)
  }

  /** Members that share a number are one object, under the name declared first. */
  function FirstName(members: seq<(string, int)>, number: int): Option<string> {
    if |members| == 0 then None
    else if members[0].1 == number then Some(members[0].0)
    else FirstName(members[1..], number)
  }

  /** The reversed dictionary keeps the name that was declared last. */
  function LastName(members: seq<(string, int)>, number: int): Option<string> {
    if |members| == 0 then None
    else
      match LastName(members[1..], number)
      case Some(name) => Some(name)
      case None => if members[0].1 == number then Some(members[0].0) else None
  }

  /** `cls[name]`: the member object that a name, possibly an alias, stands for. */
  function Lookup(enumName: string, members: seq<(string, int)>, name: string): Result<Value, Problem> {
    match NumberOf(members, name)
    case Some(number) =>
      (match FirstName(members, number)
       case Some(first) => Success(Member(enumName, first))
       case None => Failure(UnsupportedMember))
    case None => Failure(UnsupportedMember)
  }

  function LookupNumber(enumName: string, members: seq<(string, int)>, number: int): Result<Value, Problem> {
    match LastName(members, number)
    case Some(name) => Lookup(enumName, members, name)
    case None => Failure(UnsupportedMember)
  }

  function FromWireEnum(schema: Schema, name: string, value: Value): Result<Value, Problem> {
    if name !in schema.enums then Failure(UnsupportedEnum)
    else
      match value
      case Member(enumName, _) => if enumName == name then Success(value) else Failure(NotAMember)
      case Text(text) => Lookup(name, schema.enums[name], text)
      case Integer(n) => LookupNumber(name, schema.enums[name], n)
      case Truth(b) => LookupNumber(name, schema.enums[name], if b then 1 else 0)
      case _ => Failure(NotAMember)
  }

  // ----- To the wire -----

  function ToWire(value: Value): Value
    decreases value, 1
  {
    match value
    case Member(_, member) => Text(member)
    case Record(_, fields) => Entries(ToWireFields(value, |fields|))
    case Items(items, _) => Items(seq(|items|, i requires 0 <= i < |items| => ToWire(items[i])), false)
    case Entries(entries) => Entries(ToWireEntries(value, |entries|))
    case _ => value
  }

  function ToWireFields(record: Value, n: nat): (wire: seq<(Value, Value)>)
    requires record.Record? && n <= |record.fields|
    decreases record, 0, n
  {
    if n == 0 then []
    else Put(ToWireFields(record, n - 1), Text(record.fields[n - 1].0), ToWire(record.fields[n - 1].1))
  }

  function ToWireEntries(dictionary: Value, n: nat): (wire: seq<(Value, Value)>)
    requires dictionary.Entries? && n <= |dictionary.entries|
    decreases dictionary, 0, n
  {
    if n == 0 then []
    else
      var entry := dictionary.entries[n - 1];
      Put(ToWireEntries(dictionary, n - 1), ToWire(entry.0), ToWire(entry.1))
  }

  // ----- From the wire -----

  function ToFloat(value: Value): Result<Value, Problem> {
    match value
    case Float(_) => Success(value)
    case Integer(n) => Success(Float(n as real))
    case Truth(b) => Success(Float(if b then 1.0 else 0.0))
    case _ => Failure(NotAFloat)
  }

  function FromWireValue(schema: Schema, t: Type, value: Value): Result<Value, Problem>
    decreases value, 2, 0
  {
    if value.Nothing? then Success(Nothing)
    else
      match t
      case Scalar(isFloat) => if isFloat then ToFloat(value) else Success(value)
      case EnumRef(name) => FromWireEnum(schema, name, value)
      case MsgRef(name) => FromWireMessage(schema, name, value)
      case ListOf(elem) =>
        if !value.Items? then Failure(NotAList)
        else (match FromWireItems(schema, elem, value, |value.items|)
              case Success(items) => Success(Items(items, false))
              case Failure(problem) => Failure(problem))
      case MapOf(keyType, valueType) =>
        if !value.Entries? then Failure(NotAMapping)
        else (match FromWireEntries(schema, keyType, valueType, value, |value.entries|)
              case Success(entries) => Success(Entries(entries))
              case Failure(problem) => Failure(problem))
  }

  function FromWireItems(schema: Schema, elem: Type, list: Value, n: nat): (r: Result<seq<Value>, Problem>)
    requires list.Items? && n <= |list.items|
    decreases list, 0, n
  {
    if n == 0 then Success([])
    else
      match FromWireItems(schema, elem, list, n - 1)
      case Failure(problem) => Failure(problem)
      case Success(before) =>
        match FromWireValue(schema, elem, list.items[n - 1])
        case Failure(problem) => Failure(problem)
        case Success(item) => Success(before + [item])
  }

  function FromWireEntries(schema: Schema, keyType: Type, valueType: Type, dictionary: Value, n: nat)
    : (r: Result<seq<(Value, Value)>, Problem>)
    requires dictionary.Entries? && n <= |dictionary.entries|
    decreases dictionary, 0, n
  {
    if n == 0 then Success([])
    else
      match FromWireEntries(schema, keyType, valueType, dictionary, n - 1)
      case Failure(problem) => Failure(problem)
      case Success(before) =>
        match FromWireValue(schema, keyType, dictionary.entries[n - 1].0)
        case Failure(problem) => Failure(problem)
        case Success(key) =>
          match FromWireValue(schema, valueType, dictionary.entries[n - 1].1)
          case Failure(problem) => Failure(problem)
          case Success(item) => Success(Put(before, key, item))
  }

  function FromWireMessage(schema: Schema, name: string, payload: Value): Result<Value, Problem>
    decreases payload, 1, 0
  {
    if name !in schema.messages then Failure(UnsupportedMessage)
    else if payload.Record? && payload.messageName == name then Success(payload)
    else if !payload.Entries? then Failure(NotAMapping)
    else
      match FromWireFields(schema, schema.messages[name], payload, |schema.messages[name]|)
      case Success(fields) => Success(Record(name, fields))
      case Failure(problem) => Failure(problem)
  }

  function FromWireFields(schema: Schema, fields: seq<Field>, payload: Value, n: nat)
    : (r: Result<seq<(string, Value)>, Problem>)
    requires payload.Entries? && n <= |fields|
    ensures r.Success? ==> |r.value| == n && forall i :: 0 <= i < n ==> r.value[i].0 == fields[i].name
    decreases payload, 0, n
  {
    if n == 0 then Success([])
    else
      match FromWireFields(schema, fields, payload, n - 1)
      case Failure(problem) => Failure(problem)
      case Success(before) =>
        match FromWireField(schema, fields[n - 1], payload)
        case Failure(problem) => Failure(problem)
        case Success(value) => Success(before + [(fields[n - 1].name, value)])
  }

  /** An absent key and an explicit `None` both leave the field `None`. */
  function FromWireField(schema: Schema, field: Field, payload: Value): Result<Value, Problem>
    requires payload.Entries?
    decreases payload, 0, 0
  {
    var k := KeyAt(payload.entries, Text(field.name));
    if k == |payload.entries| then Success(Nothing)
    else FromWireValue(schema, field.fieldType, payload.entries[k].1)
  }
}
