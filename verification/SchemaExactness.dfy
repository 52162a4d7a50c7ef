/**
  The projection removes exactly the listed additions: it accepts just the schemas that
  hold every one of them unchanged, and keeps all else in order.
*/
module SchemaExactness {

  import opened Wrappers
  import opened SchemaItems
  import opened SchemaProjection

  // ----- What the tables list -----

  predicate DropsMessage(edit: Edit, name: string) {
    match edit
    case DropPrefix(kind, prefix) => kind.Messages? && prefix <= name
    case DropNamed(kind, names) => kind.Messages? && name in names
    case RemoveMessage(message) => message.name == name
    case _ => false
  }

  predicate DropsEnum(edit: Edit, name: string) {
    match edit
    case DropPrefix(kind, prefix) => kind.Enums? && prefix <= name
    case DropNamed(kind, names) => kind.Enums? && name in names
    case RemoveEnum(enumeration) => enumeration.name == name
    case _ => false
  }

  predicate DropsField(edit: Edit, message: string, field: string) {
    edit.RemoveField? && edit.messageName == message && edit.field.name == field
  }

  predicate DropsMember(edit: Edit, enumName: string, member: string) {
    edit.PopMember? && edit.enumName == enumName && edit.member == member
  }

  predicate DropsMethod(edit: Edit, service: string, name: string) {
    edit.DropMethods? && edit.service == service && name in edit.methods
  }

  predicate OldMessage(edits: seq<Edit>, name: string) {
    forall edit <- edits :: !DropsMessage(edit, name)
  }

  predicate OldEnum(edits: seq<Edit>, name: string) {
    forall edit <- edits :: !DropsEnum(edit, name)
  }

  predicate OldField(edits: seq<Edit>, message: string, field: string) {
    forall edit <- edits :: !DropsField(edit, message, field)
  }

  predicate OldMember(edits: seq<Edit>, enumName: string, member: string) {
    forall edit <- edits :: !DropsMember(edit, enumName, member)
  }

  predicate OldMethod(edits: seq<Edit>, service: string, name: string) {
    forall edit <- edits :: !DropsMethod(edit, service, name)
  }

  // ----- Everything else -----

  function OldSlots(edits: seq<Edit>, message: string, body: MessageBody): MessageBody {
    body.(fields := Where(body.fields, field => OldField(edits, message, field)))
  }

  function OldMembers(edits: seq<Edit>, enumName: string, members: Members): Members {
    map member | member in members && OldMember(edits, enumName, member) :: members[member]
  }

  function OldMethods(edits: seq<Edit>, service: string, methods: Methods): Methods {
    Where(methods, name => OldMethod(edits, service, name))
  }

  /** The document without what the tables list, all in its order. */
  function Outside(edits: seq<Edit>, doc: Document): Document {
    Document(
      Keep(doc.messages, name => OldMessage(edits, name), (name, body) => OldSlots(edits, name, body)),
      Keep(doc.enums, name => OldEnum(edits, name), (name, members) => OldMembers(edits, name, members)),
      Keep(doc.services, name => true, (name, methods) => OldMethods(edits, name, methods)))
  }

  /** The addition of one edit is in the document, unchanged and once. */
  predicate Holds(edit: Edit, doc: Document) {
    match edit
    case DropPrefix(_, _) => true
    case DropNamed(kind, names) =>
      if kind.Messages? then AllPresent(doc.messages, names) else AllPresent(doc.enums, names)
    case RemoveMessage(message) => Named(doc.messages, message.name) == [message]
    case RemoveEnum(enumeration) => Named(doc.enums, enumeration.name) == [enumeration]
    case CheckEnum(expected) => Find(doc.enums, expected.name) == Some(expected.body)
    case PopMember(enumName, member, number) =>
      var members := Find(doc.enums, enumName).GetOr(map[]);
      member in members && members[member] == number
    case RemoveField(messageName, field) =>
      var body := Find(doc.messages, messageName);
      body.Some? && Named(body.value.fields, field.name) == [field]
    case DropMethods(service, methods, required) =>
      var declared := Find(doc.services, service);
      declared.Some? && (required ==> AllPresent(declared.value, methods))
  }

  // ----- One edit takes out exactly what it lists -----

  lemma {:induction false} RemoveDropsTheOnlyOne<T>(items: seq<Item<T>>, item: Item<T>)
    requires Named(items, item.name) == [item]
    ensures
      var k := NameAt(items, item.name);
      k < |items| && Remove(items, item) == items[..k] + items[k + 1..]
  {
    if items[0] == item {
    } else {
      TheOnlyOne(items, item);
      assert items[0].name == item.name ==> NameAt(items, item.name) == 0;
      RemoveDropsTheOnlyOne(items[1..], item);
      var k := NameAt(items[1..], item.name);
      assert items[..k + 1] == [items[0]] + items[1..][..k];
    }
  }

  /** Taking out the only item of a name is filtering the name out. */
  lemma RemoveIsWhere<T>(items: seq<Item<T>>, item: Item<T>, keep: string -> bool)
    requires Named(items, item.name) == [item]
    requires forall i :: 0 <= i < |items| ==> (keep(items[i].name) <==> items[i].name != item.name)
    ensures Remove(items, item) == Where(items, keep)
  {
    TheOnlyOne(items, item);
    RemoveDropsTheOnlyOne(items, item);
    WhereDropsOne(items, {}, NameAt(items, item.name), keep);
  }

  lemma OneEditLists(edit: Edit)
    ensures forall name :: OldMessage([edit], name) <==> !DropsMessage(edit, name)
    ensures forall name :: OldEnum([edit], name) <==> !DropsEnum(edit, name)
    ensures forall message, name :: OldField([edit], message, name) <==> !DropsField(edit, message, name)
    ensures forall enumName, name :: OldMember([edit], enumName, name) <==> !DropsMember(edit, enumName, name)
    ensures forall service, name :: OldMethod([edit], service, name) <==> !DropsMethod(edit, service, name)
  {
    assert edit in [edit];
  }

  predicate SameMessages(edit: Edit, doc: Document) {
    Outside([edit], doc).messages == doc.messages
  }

  predicate SameEnums(edit: Edit, doc: Document) {
    Outside([edit], doc).enums == doc.enums
  }

  predicate SameServices(edit: Edit, doc: Document) {
    Outside([edit], doc).services == doc.services
  }

  /** An edit leaves alone what it does not list. */
  lemma MessagesStay(edit: Edit, doc: Document)
    requires edit.RemoveEnum? || edit.CheckEnum? || edit.PopMember? || edit.DropMethods?
             || ((edit.DropPrefix? || edit.DropNamed?) && edit.kind.Enums?)
    ensures SameMessages(edit, doc)
  {
    forall name, body ensures OldSlots([edit], name, body) == body {
      WhereNothingChanges(body.fields, field => OldField([edit], name, field));
    }
    KeepNothingChanges(doc.messages, {}, name => OldMessage([edit], name),
      (name, body) => OldSlots([edit], name, body));
  }

  lemma EnumsStay(edit: Edit, doc: Document)
    requires edit.RemoveMessage? || edit.CheckEnum? || edit.RemoveField? || edit.DropMethods?
             || ((edit.DropPrefix? || edit.DropNamed?) && edit.kind.Messages?)
    ensures SameEnums(edit, doc)
  {
    forall name, members ensures OldMembers([edit], name, members) == members {
    }
    KeepNothingChanges(doc.enums, {}, name => OldEnum([edit], name),
      (name, members) => OldMembers([edit], name, members));
  }

  lemma ServicesStay(edit: Edit, doc: Document)
    requires !edit.DropMethods?
    ensures SameServices(edit, doc)
  {
    forall name, methods ensures OldMethods([edit], name, methods) == methods {
      WhereNothingChanges(methods, m => OldMethod([edit], name, m));
    }
    KeepNothingChanges(doc.services, {}, name => true, (name, methods) => OldMethods([edit], name, methods));
  }

  lemma MessagesDropped(edit: Edit, doc: Document, keep: string -> bool)
    requires !edit.RemoveField? && forall name :: keep(name) <==> OldMessage([edit], name)
    ensures Outside([edit], doc).messages == Where(doc.messages, keep)
  {
    forall name, body ensures OldSlots([edit], name, body) == body {
      WhereNothingChanges(body.fields, field => OldField([edit], name, field));
    }
    KeepIsWhere(doc.messages, name => OldMessage([edit], name), (name, body) => OldSlots([edit], name, body), keep);
  }

  lemma EnumsDropped(edit: Edit, doc: Document, keep: string -> bool)
    requires !edit.PopMember? && forall name :: keep(name) <==> OldEnum([edit], name)
    ensures Outside([edit], doc).enums == Where(doc.enums, keep)
  {
    forall name, members ensures OldMembers([edit], name, members) == members {
    }
    KeepIsWhere(doc.enums, name => OldEnum([edit], name), (name, members) => OldMembers([edit], name, members), keep);
  }

  predicate IsExact(edit: Edit, doc: Document) {
    Apply(edit, doc) == if Holds(edit, doc) then Some(Outside([edit], doc)) else None
  }

  lemma DroppingIsExact(edit: Edit, doc: Document)
    requires edit.DropPrefix? || edit.DropNamed?
    ensures IsExact(edit, doc)
  {
    hide Outside, AllPresent, Where;
    OneEditLists(edit);
    ServicesStay(edit, doc);
    if edit.kind.Messages? {
      EnumsStay(edit, doc);
      if edit.DropPrefix? {
        MessagesDropped(edit, doc, name => !(edit.prefix <= name));
      } else {
        MessagesDropped(edit, doc, name => name !in edit.names);
      }
    } else {
      MessagesStay(edit, doc);
      if edit.DropPrefix? {
        EnumsDropped(edit, doc, name => !(edit.prefix <= name));
      } else {
        EnumsDropped(edit, doc, name => name !in edit.names);
      }
    }
  }

  lemma RemovingIsExact(edit: Edit, doc: Document)
    requires edit.RemoveMessage? || edit.RemoveEnum? || edit.CheckEnum?
    ensures IsExact(edit, doc)
  {
    hide Outside, Where, Remove;
    OneEditLists(edit);
    ServicesStay(edit, doc);
    if edit.RemoveMessage? {
      EnumsStay(edit, doc);
      var keep := name => name != edit.message.name;
      MessagesDropped(edit, doc, keep);
      if Holds(edit, doc) {
        RemoveIsWhere(doc.messages, edit.message, keep);
      }
    } else {
      MessagesStay(edit, doc);
      if edit.CheckEnum? {
        EnumsStay(edit, doc);
      } else {
        var keep := name => name != edit.enumeration.name;
        EnumsDropped(edit, doc, keep);
        if Holds(edit, doc) {
          RemoveIsWhere(doc.enums, edit.enumeration, keep);
        }
      }
    }
  }

  lemma PoppingIsExact(edit: Edit, doc: Document)
    requires edit.PopMember?
    ensures IsExact(edit, doc)
  {
    OneEditLists(edit);
    MessagesStay(edit, doc);
    ServicesStay(edit, doc);
    var k := NameAt(doc.enums, edit.enumName);
    if k < |doc.enums| {
      forall name, members ensures OldMembers([edit], name, members)
                                == if name == edit.enumName then members - {edit.member} else members {
      }
      KeepTrimsOne(doc.enums, {}, edit.enumName, name => OldEnum([edit], name),
        (name, members) => OldMembers([edit], name, members));
    }
  }

  lemma FieldRemovalIsExact(edit: Edit, doc: Document)
    requires edit.RemoveField?
    ensures IsExact(edit, doc)
  {
    OneEditLists(edit);
    EnumsStay(edit, doc);
    ServicesStay(edit, doc);
    var k := NameAt(doc.messages, edit.messageName);
    if Holds(edit, doc) {
      var body := doc.messages[k].body;
      RemoveIsWhere(body.fields, edit.field, field => OldField([edit], edit.messageName, field));
      forall i | 0 <= i < |doc.messages| && doc.messages[i].name != edit.messageName
        ensures OldSlots([edit], doc.messages[i].name, doc.messages[i].body) == doc.messages[i].body {
        WhereNothingChanges(doc.messages[i].body.fields, field => OldField([edit], doc.messages[i].name, field));
      }
      KeepTrimsOne(doc.messages, {}, edit.messageName, name => OldMessage([edit], name),
        (name, body) => OldSlots([edit], name, body));
    }
  }

  lemma MethodRemovalIsExact(edit: Edit, doc: Document)
    requires edit.DropMethods?
    ensures IsExact(edit, doc)
  {
    OneEditLists(edit);
    MessagesStay(edit, doc);
    EnumsStay(edit, doc);
    var k := NameAt(doc.services, edit.service);
    if k < |doc.services| {
      var declared := doc.services[k].body;
      WhereAlike(declared, name => name !in edit.methods, name => OldMethod([edit], edit.service, name));
      forall i | 0 <= i < |doc.services| && doc.services[i].name != edit.service
        ensures OldMethods([edit], doc.services[i].name, doc.services[i].body) == doc.services[i].body {
        WhereNothingChanges(doc.services[i].body, name => OldMethod([edit], doc.services[i].name, name));
      }
      KeepTrimsOne(doc.services, {}, edit.service, name => true, (name, methods) => OldMethods([edit], name, methods));
    }
  }

  /** One edit takes out exactly what it lists, and refuses a schema that does not hold it. */
  lemma EditIsExact(edit: Edit, doc: Document)
    ensures IsExact(edit, doc)
  {
    hide IsExact;
    match edit {
      case PopMember(_, _, _) => PoppingIsExact(edit, doc);
      case RemoveField(_, _) => FieldRemovalIsExact(edit, doc);
      case DropMethods(_, _, _) => MethodRemovalIsExact(edit, doc);
      case DropPrefix(_, _) => DroppingIsExact(edit, doc);
      case DropNamed(_, _) => DroppingIsExact(edit, doc);
      case _ => RemovingIsExact(edit, doc);
    }
  }

  // ----- Runs of edits -----

  /** Listing one more edit is stripping its addition first. */
  lemma OutsideInTurn(edit: Edit, rest: seq<Edit>, doc: Document)
    ensures Outside([edit] + rest, doc) == Outside(rest, Outside([edit], doc))
  {
    hide DropsMessage, DropsEnum, DropsField, DropsMember, DropsMethod;
    var edits := [edit] + rest;
    assert forall e :: e in edits <==> e in [edit] || e in rest;
    assert forall enumName, m :: OldMember(edits, enumName, m) <==>
             OldMember([edit], enumName, m) && OldMember(rest, enumName, m);
    forall name, body ensures OldSlots(edits, name, body) == OldSlots(rest, name, OldSlots([edit], name, body)) {
      WhereTwice(body.fields, field => OldField([edit], name, field), field => OldField(rest, name, field),
                 field => OldField(edits, name, field));
    }
    KeepTwice(doc.messages, {}, {}, name => OldMessage([edit], name), (name, body) => OldSlots([edit], name, body),
              name => OldMessage(rest, name), (name, body) => OldSlots(rest, name, body),
              name => OldMessage(edits, name), (name, body) => OldSlots(edits, name, body));
    forall name, members: Members
      ensures OldMembers(edits, name, members) == OldMembers(rest, name, OldMembers([edit], name, members)) {
    }
    KeepTwice(doc.enums, {}, {}, name => OldEnum([edit], name), (name, members) => OldMembers([edit], name, members),
              name => OldEnum(rest, name), (name, members) => OldMembers(rest, name, members),
              name => OldEnum(edits, name), (name, members) => OldMembers(edits, name, members));
    forall name, methods
      ensures OldMethods(edits, name, methods) == OldMethods(rest, name, OldMethods([edit], name, methods)) {
      WhereTwice(methods, m => OldMethod([edit], name, m), m => OldMethod(rest, name, m),
        m => OldMethod(edits, name, m));
    }
    KeepTwice(doc.services, {}, {}, name => true, (name, methods) => OldMethods([edit], name, methods),
              name => true, (name, methods) => OldMethods(rest, name, methods),
              name => true, (name, methods) => OldMethods(edits, name, methods));
  }

  lemma OutsideOfNothing(doc: Document)
    ensures Outside([], doc) == doc
  {
    forall name, body ensures OldSlots([], name, body) == body {
      WhereNothingChanges(body.fields, field => OldField([], name, field));
    }
    KeepNothingChanges(doc.messages, {}, name => OldMessage([], name), (name, body) => OldSlots([], name, body));
    forall name, members ensures OldMembers([], name, members) == members {
    }
    KeepNothingChanges(doc.enums, {}, name => OldEnum([], name), (name, members) => OldMembers([], name, members));
    forall name, methods ensures OldMethods([], name, methods) == methods {
      WhereNothingChanges(methods, m => OldMethod([], name, m));
    }
    KeepNothingChanges(doc.services, {}, name => true, (name, methods) => OldMethods([], name, methods));
  }

  // ----- Edits that do not disturb one another -----

  /** The earlier edit takes nothing that the later one looks for. */
  predicate LeavesAlone(earlier: Edit, later: Edit) {
    match later
    case DropPrefix(_, _) => true
    case DropNamed(kind, names) =>
      forall name <- names :: if kind.Messages? then !DropsMessage(earlier, name) else !DropsEnum(earlier, name)
    case RemoveMessage(message) => LeavesMessage(earlier, message.name)
    case RemoveEnum(enumeration) => LeavesEnum(earlier, enumeration.name)
    case CheckEnum(expected) => LeavesEnum(earlier, expected.name)
    case PopMember(enumName, member, _) => !DropsEnum(earlier, enumName) && !DropsMember(earlier, enumName, member)
    case RemoveField(messageName, field) =>
      !DropsMessage(earlier, messageName) && !DropsField(earlier, messageName, field.name)
    case DropMethods(service, methods, required) =>
      required ==> forall name <- methods :: !DropsMethod(earlier, service, name)
  }

  predicate LeavesMessage(edit: Edit, name: string) {
    !DropsMessage(edit, name) && !(edit.RemoveField? && edit.messageName == name)
  }

  predicate LeavesEnum(edit: Edit, name: string) {
    !DropsEnum(edit, name) && !(edit.PopMember? && edit.enumName == name)
  }

  predicate InOrder(edits: seq<Edit>) {
    forall i, j :: 0 <= i < j < |edits| ==> LeavesAlone(edits[i], edits[j])
  }

  predicate Unmoved(edit: Edit, later: Edit, doc: Document) {
    Holds(later, Outside([edit], doc)) <==> Holds(later, doc)
  }

  lemma NamesStay(edit: Edit, later: Edit, doc: Document)
    requires LeavesAlone(edit, later) && later.DropNamed?
    ensures Unmoved(edit, later, doc)
  {
    OneEditLists(edit);
    forall name | name in later.names
      ensures later.kind.Messages? ==> (
                Find(Outside([edit], doc).messages, name).Some? <==> Find(doc.messages, name).Some?)
      ensures later.kind.Enums? ==> (Find(Outside([edit], doc).enums, name).Some? <==> Find(doc.enums, name).Some?)
    {
      KeepFinds(doc.messages, {}, n => OldMessage([edit], n), (n, body) => OldSlots([edit], n, body), name);
      KeepFinds(doc.enums, {}, n => OldEnum([edit], n), (n, members) => OldMembers([edit], n, members), name);
    }
  }

  lemma WholeMessageStays(edit: Edit, later: Edit, doc: Document)
    requires LeavesAlone(edit, later) && later.RemoveMessage?
    ensures Unmoved(edit, later, doc)
  {
    OneEditLists(edit);
    var name := later.message.name;
    forall body ensures OldSlots([edit], name, body) == body {
      WhereNothingChanges(body.fields, field => OldField([edit], name, field));
    }
    KeepsNamed(doc.messages, n => OldMessage([edit], n), (n, body) => OldSlots([edit], n, body), name);
  }

  lemma WholeEnumStays(edit: Edit, doc: Document, name: string)
    requires LeavesEnum(edit, name)
    ensures Named(Outside([edit], doc).enums, name) == Named(doc.enums, name)
    ensures Find(Outside([edit], doc).enums, name) == Find(doc.enums, name)
  {
    OneEditLists(edit);
    forall members: Members ensures OldMembers([edit], name, members) == members {
    }
    KeepsNamed(doc.enums, n => OldEnum([edit], n), (n, members) => OldMembers([edit], n, members), name);
    KeepFinds(doc.enums, {}, n => OldEnum([edit], n), (n, members) => OldMembers([edit], n, members), name);
  }

  lemma MemberStays(edit: Edit, later: Edit, doc: Document)
    requires LeavesAlone(edit, later) && later.PopMember?
    ensures Unmoved(edit, later, doc)
  {
    OneEditLists(edit);
    KeepFinds(doc.enums, {}, n => OldEnum([edit], n), (n, members) => OldMembers([edit], n, members), later.enumName);
  }

  lemma FieldStays(edit: Edit, later: Edit, doc: Document)
    requires LeavesAlone(edit, later) && later.RemoveField?
    ensures Unmoved(edit, later, doc)
  {
    OneEditLists(edit);
    var host := later.messageName;
    KeepFinds(doc.messages, {}, n => OldMessage([edit], n), (n, body) => OldSlots([edit], n, body), host);
    var body := Find(doc.messages, host);
    if body.Some? {
      WhereNamed(body.value.fields, field => OldField([edit], host, field), later.field.name);
    }
  }

  lemma MethodsStay(edit: Edit, later: Edit, doc: Document)
    requires LeavesAlone(edit, later) && later.DropMethods?
    ensures Unmoved(edit, later, doc)
  {
    OneEditLists(edit);
    KeepFinds(doc.services, {}, name => true, (name, methods) => OldMethods([edit], name, methods), later.service);
    var declared := Find(doc.services, later.service);
    if declared.Some? && later.required {
      forall name | name in later.methods
        ensures Find(OldMethods([edit], later.service, declared.value), name) == Find(declared.value, name) {
        WhereFinds(declared.value, m => OldMethod([edit], later.service, m), name);
      }
    }
  }

  lemma EarlierEditsDoNotMatter(edit: Edit, later: Edit, doc: Document)
    requires LeavesAlone(edit, later)
    ensures Unmoved(edit, later, doc)
  {
    match later {
      case DropPrefix(_, _) =>
      case DropNamed(_, _) => NamesStay(edit, later, doc);
      case RemoveMessage(_) => WholeMessageStays(edit, later, doc);
      case RemoveEnum(enumeration) => WholeEnumStays(edit, doc, enumeration.name);
      case CheckEnum(expected) => WholeEnumStays(edit, doc, expected.name);
      case PopMember(_, _, _) => MemberStays(edit, later, doc);
      case RemoveField(_, _) => FieldStays(edit, later, doc);
      case DropMethods(_, _, _) => MethodsStay(edit, later, doc);
    }
  }

  // ----- Exactness -----

  /** The schema holds every listed addition, each unchanged. */
  predicate HoldsAll(edits: seq<Edit>, doc: Document) {
    forall edit <- edits :: Holds(edit, doc)
  }

  /** Whatever the tables, the projection of an accepted schema is everything they do not list. */
  lemma {:induction false} ProjectionIsTheRest(edits: seq<Edit>, doc: Document)
    requires Project(edits, doc).Some?
    ensures Project(edits, doc) == Some(Outside(edits, doc))
  {
    hide Outside, Holds, Apply;
    if |edits| == 0 {
      OutsideOfNothing(doc);
      assert edits == [];
    } else {
      var edit, rest := edits[0], edits[1..];
      assert edits == [edit] + rest;
      EditIsExact(edit, doc);
      ProjectionIsTheRest(rest, Outside([edit], doc));
      OutsideInTurn(edit, rest, doc);
    }
  }

  /** A schema is accepted just when it holds every addition, and its projection is everything else. */
  lemma {:induction false} ProjectionIsExact(edits: seq<Edit>, doc: Document)
    requires InOrder(edits)
    ensures Project(edits, doc) == if HoldsAll(edits, doc) then Some(Outside(edits, doc)) else None
  {
    hide Outside, Holds, Apply, LeavesAlone;
    if |edits| == 0 {
      OutsideOfNothing(doc);
      assert edits == [];
    } else {
      var edit, rest := edits[0], edits[1..];
      assert edits == [edit] + rest;
      EditIsExact(edit, doc);
      if Holds(edit, doc) {
        var next := Outside([edit], doc);
        ProjectionIsExact(rest, next);
        OutsideInTurn(edit, rest, doc);
        forall later | later in rest ensures Holds(later, next) <==> Holds(later, doc) {
          EarlierEditsDoNotMatter(edit, later, doc);
        }
      }
    }
  }
}
