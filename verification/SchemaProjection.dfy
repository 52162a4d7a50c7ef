/**
  The projection that strips later additions from a protocol schema, so that everything
  older is fingerprinted. It is given as a list of edits, one for each check-and-remove
  step; the tables of additions are data of the edits.
*/
module SchemaProjection {

  import opened Wrappers
  import opened SchemaItems

  datatype WireType =
    | Scalar(kind: string)
    | EnumType(name: string)
    | MessageType(name: string)
    | ListType(elem: WireType)

  datatype Presence = Required | Optional | MissingOk

  /** All that a field declares besides its name. */
  datatype Slot = Slot(tag: int, wireType: WireType, presence: Presence, transient: bool, merge: Option<string>)

  datatype MessageBody = MessageBody(fields: seq<Item<Slot>>, nextId: Option<int>,
                                     reservedNames: seq<string>, reservedTags: seq<int>)

  /** Members are a JSON object: their order carries nothing. */
  type Members = map<string, int>

  /** A method with everything it declares besides its name. */
  type Methods = seq<Item<string>>

  datatype Document = Document(messages: seq<Item<MessageBody>>, enums: seq<Item<Members>>,
                               services: seq<Item<Methods>>)

  datatype Kind = Messages | Enums

  datatype Edit =
    | DropPrefix(kind: Kind, prefix: string)
    | DropNamed(kind: Kind, names: set<string>)
    | RemoveMessage(message: Item<MessageBody>)
    | RemoveEnum(enumeration: Item<Members>)
    | CheckEnum(expected: Item<Members>)
    | PopMember(enumName: string, member: string, number: int)
    | RemoveField(messageName: string, field: Item<Slot>)
    | DropMethods(service: string, methods: set<string>, required: bool)

  // ----- One edit, as the source makes it -----

  /** `list.remove`: the first equal item goes. */
  function Remove<T(==)>(items: seq<Item<T>>, item: Item<T>): seq<Item<T>> {
    if |items| == 0 then [] else if items[0] == item then items[1..] else [items[0]] + Remove(items[1..], item)
  }

  predicate AllPresent<T>(items: seq<Item<T>>, names: set<string>) {
    forall name <- names :: Find(items, name).Some?
  }

  function Apply(edit: Edit, doc: Document): Option<Document> {
    match edit
    case DropPrefix(kind, prefix) =>
      if kind.Messages? then Some(doc.(messages := Where(doc.messages, name => !(prefix <= name))))
      else Some(doc.(enums := Where(doc.enums, name => !(prefix <= name))))
    case DropNamed(kind, names) =>
      if kind.Messages? then
        if !AllPresent(doc.messages, names) then None
        else Some(doc.(messages := Where(doc.messages, name => name !in names)))
      else
        if !AllPresent(doc.enums, names) then None
        else Some(doc.(enums := Where(doc.enums, name => name !in names)))
    case RemoveMessage(message) =>
      if Named(doc.messages, message.name) != [message] then None
      else Some(doc.(messages := Remove(doc.messages, message)))
    case RemoveEnum(enumeration) =>
      if Named(doc.enums, enumeration.name) != [enumeration] then None
      else Some(doc.(enums := Remove(doc.enums, enumeration)))
    case CheckEnum(expected) =>
      if Find(doc.enums, expected.name) != Some(expected.body) then None else Some(doc)
    case PopMember(enumName, member, number) =>
      var k := NameAt(doc.enums, enumName);
      if k == |doc.enums| then None
      else
        var members := doc.enums[k].body;
        if member !in members || members[member] != number then None
        else Some(doc.(enums := doc.enums[k := Item(enumName, members - {member})]))
    case RemoveField(messageName, field) =>
      var k := NameAt(doc.messages, messageName);
      if k == |doc.messages| then None
      else
        var body := doc.messages[k].body;
        if Named(body.fields, field.name) != [field] then None
        else Some(doc.(messages := doc.messages[k := Item(messageName, body.(fields := Remove(body.fields, field)))]))
    case DropMethods(service, methods, required) =>
      var k := NameAt(doc.services, service);
      if k == |doc.services| then None
      else
        var declared := doc.services[k].body;
        if required && !AllPresent(declared, methods) then None
        else Some(doc.(services := doc.services[k := Item(service, Where(declared, name => name !in methods))]))
  }

  function Project(edits: seq<Edit>, doc: Document): Option<Document> {
    if |edits| == 0 then Some(doc)
    else
      match Apply(edits[0], doc)
      case None => None
      case Some(next) => Project(edits[1..], next)
  }

  /** The copied document, edited in place. */
  class Projection {
    var messages: seq<Item<MessageBody>>
    var enums: seq<Item<Members>>
    var services: seq<Item<Methods>>

    ghost function Current(): Document
      reads this
    {
      Document(messages, enums, services)
    }

    constructor (value: Document)
      ensures Current() == value
    {
      messages, enums, services := value.messages, value.enums, value.services;
    }

    method RemoveListedField(messageName: string, field: Item<Slot>) returns (ok: bool)
      modifies this`messages
      ensures ok <==> Apply(RemoveField(messageName, field), old(Current())).Some?
      ensures Current() == if ok then Apply(RemoveField(messageName, field), old(Current())).value else old(Current())
    {
      var k := NameAt(messages, messageName);
      if k == |messages| {
        return false;
      }
      var body := messages[k].body;
      ok := Named(body.fields, field.name) == [field];
      if ok {
        messages := messages[k := Item(messageName, body.(fields := Remove(body.fields, field)))];
      }
    }

    method PopListedMember(enumName: string, member: string, number: int) returns (ok: bool)
      modifies this`enums
      ensures ok <==> Apply(PopMember(enumName, member, number), old(Current())).Some?
      ensures ok ==> Current() == Apply(PopMember(enumName, member, number), old(Current())).value
    {
      var k := NameAt(enums, enumName);
      if k == |enums| {
        return false;
      }
      var members := enums[k].body;
      enums := enums[k := Item(enumName, members - {member})];
      ok := member in members && members[member] == number;
    }

    /** The source's run of edits, which stops at the first that finds its addition missing or changed. */
    method Run(edits: seq<Edit>) returns (ok: bool)
      modifies this
      ensures ok <==> Project(edits, old(Current())).Some?
      ensures ok ==> Current() == Project(edits, old(Current())).value
    {
      for i := 0 to |edits|
        invariant Project(edits, old(Current())) == Project(edits[i..], Current())
      {
        var edit := edits[i];
        assert edits[i..][1..] == edits[i + 1..];
        match edit {
          case RemoveField(messageName, field) =>
            ok := RemoveListedField(messageName, field);
          case PopMember(enumName, member, number) =>
            ok := PopListedMember(enumName, member, number);
          case _ =>
            var next := Apply(edit, Document(messages, enums, services));
            ok := next.Some?;
            if ok {
              messages, enums, services := next.value.messages, next.value.enums, next.value.services;
            }
        }
        if !ok {
          return;
        }
      }
      ok := true;
    }
  }
}
