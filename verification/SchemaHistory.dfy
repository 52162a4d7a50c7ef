/**
  What the projection is for: stripping a schema's listed growth gives the schema it grew
  from, and two accepted schemas with one projection agree on everything else.
*/
module SchemaHistory {

  import opened Wrappers
  import opened SchemaItems
  import opened SchemaProjection
  import opened SchemaExactness

  // ----- Growth -----

  function Insert<T>(items: seq<Item<T>>, p: nat, item: Item<T>): seq<Item<T>>
    requires p <= |items|
  {
    items[..p] + [item] + items[p..]
  }

  /** `after` is `before` with the addition of one edit, at any place in the lists. */
  ghost predicate Grows(edit: Edit, before: Document, after: Document) {
    match edit
    case DropPrefix(kind, prefix) =>
      if kind.Messages? then
        before == after.(messages := before.messages) &&
          Where(after.messages, name => !(prefix <= name)) == before.messages
      else
        before == after.(enums := before.enums) && Where(after.enums, name => !(prefix <= name)) == before.enums
    case DropNamed(kind, names) =>
      if kind.Messages? then
        && before == after.(messages := before.messages)
        && Where(after.messages, name => name !in names) == before.messages && AllPresent(after.messages, names)
      else
        && before == after.(enums := before.enums)
        && Where(after.enums, name => name !in names) == before.enums && AllPresent(after.enums, names)
    case CheckEnum(expected) => before == after && Find(before.enums, expected.name) == Some(expected.body)
    case RemoveMessage(message) =>
      && Find(before.messages, message.name).None?
      && exists p: nat :: p <= |before.messages| && after == before.(messages := Insert(before.messages, p, message))
    case RemoveEnum(enumeration) =>
      && Find(before.enums, enumeration.name).None?
      && exists p: nat :: p <= |before.enums| && after == before.(enums := Insert(before.enums, p, enumeration))
    case PopMember(enumName, member, number) =>
      var k := NameAt(before.enums, enumName);
      && k < |before.enums| && member !in before.enums[k].body
      && after == before.(enums := before.enums[k := Item(enumName, before.enums[k].body[member := number])])
    case RemoveField(messageName, field) =>
      var k := NameAt(before.messages, messageName);
      && k < |before.messages| && Find(before.messages[k].body.fields, field.name).None?
      && exists p: nat ::
           && p <= |before.messages[k].body.fields|
           && after == before.(messages := before.messages[k := Item(messageName,
                before.messages[k].body.(fields := Insert(before.messages[k].body.fields, p, field)))])
    case DropMethods(service, methods, required) =>
      var k := NameAt(before.services, service);
      && k < |before.services| && k < |after.services|
      && after == before.(services := before.services[k := Item(service, after.services[k].body)])
      && Where(after.services[k].body, name => name !in methods) == before.services[k].body
      && (required ==> AllPresent(after.services[k].body, methods))
  }

  lemma NameStaysAt<T>(items: seq<Item<T>>, name: string, body: T)
    requires NameAt(items, name) < |items|
    ensures
      var k := NameAt(items, name);
      NameAt(items[k := Item(name, body)], name) == k
  {
    var k := NameAt(items, name);
    var changed := items[k := Item(name, body)];
    assert changed[k].name == name;
    assert forall i :: 0 <= i < k ==> changed[i] == items[i];
  }

  lemma {:induction false} InsertedIsRemoved<T>(items: seq<Item<T>>, p: nat, item: Item<T>)
    requires p <= |items| && Find(items, item.name).None?
    ensures Named(Insert(items, p, item), item.name) == [item]
    ensures Remove(Insert(items, p, item), item) == items
  {
    hide Named, Remove, Insert, NameAt;
    if p == 0 {
      InsertedFirst(items, item);
    } else {
      NotAmong(items, item.name);
      InsertedIsRemoved(items[1..], p - 1, item);
      InsertedBehind(items, p, item);
      FirstIsAnother(Insert(items, p, item), item);
      assert items == [items[0]] + items[1..];
    }
  }

  lemma NotAmong<T>(items: seq<Item<T>>, name: string)
    requires |items| > 0 && Find(items, name).None?
    ensures items[0].name != name && Find(items[1..], name).None?
  {
  }

  lemma InsertedFirst<T>(items: seq<Item<T>>, item: Item<T>)
    requires Find(items, item.name).None?
    ensures Named(Insert(items, 0, item), item.name) == [item]
    ensures Remove(Insert(items, 0, item), item) == items
  {
    NoneNamed(items, item.name);
    assert Insert(items, 0, item) == [item] + items && ([item] + items)[1..] == items;
  }

  lemma InsertedBehind<T>(items: seq<Item<T>>, p: nat, item: Item<T>)
    requires 0 < p <= |items|
    ensures |Insert(items, p, item)| > 0 && Insert(items, p, item)[0] == items[0]
    ensures Insert(items, p, item)[1..] == Insert(items[1..], p - 1, item)
  {
    assert items[..p][1..] == items[1..][..p - 1] && items[p..] == items[1..][p - 1..];
    assert Insert(items, p, item)[1..] == items[..p][1..] + [item] + items[p..];
  }

  lemma FirstIsAnother<T>(items: seq<Item<T>>, item: Item<T>)
    requires |items| > 0 && items[0].name != item.name
    ensures Named(items, item.name) == Named(items[1..], item.name)
    ensures Remove(items, item) == [items[0]] + Remove(items[1..], item)
  {
  }

  /** Stripping an addition undoes it. */
  lemma GrowthIsStripped(edit: Edit, before: Document, after: Document)
    requires Grows(edit, before, after)
    ensures Apply(edit, after) == Some(before)
  {
    hide Where, AllPresent, Insert, Remove, Named;
    match edit {
      case RemoveMessage(message) =>
        var p: nat :| p <= |before.messages| && after == before.(messages := Insert(before.messages, p, message));
        InsertedIsRemoved(before.messages, p, message);
      case RemoveEnum(enumeration) =>
        var p: nat :| p <= |before.enums| && after == before.(enums := Insert(before.enums, p, enumeration));
        InsertedIsRemoved(before.enums, p, enumeration);
      case PopMember(enumName, member, number) =>
        var k := NameAt(before.enums, enumName);
        var members := before.enums[k].body;
        NameStaysAt(before.enums, enumName, members[member := number]);
        assert members[member := number] - {member} == members;
        assert after.enums[k := before.enums[k]] == before.enums;
      case RemoveField(messageName, field) =>
        FieldGrowthIsStripped(edit, before, after);
      case DropMethods(service, _, _) =>
        var k := NameAt(before.services, service);
        NameStaysAt(before.services, service, after.services[k].body);
        assert after.services[k := before.services[k]] == before.services;
      case _ =>
    }
  }

  lemma FieldGrowthIsStripped(edit: Edit, before: Document, after: Document)
    requires edit.RemoveField? && Grows(edit, before, after)
    ensures Apply(edit, after) == Some(before)
  {
    hide Insert, Remove, Named;
    var k := NameAt(before.messages, edit.messageName);
    var body := before.messages[k].body;
    var p: nat :| p <= |body.fields|
      && after == before.(messages :=
           before.messages[k := Item(edit.messageName, body.(fields := Insert(body.fields, p, edit.field)))]);
    InsertedIsRemoved(body.fields, p, edit.field);
    NameStaysAt(before.messages, edit.messageName, body.(fields := Insert(body.fields, p, edit.field)));
    assert after.messages[k := before.messages[k]] == before.messages;
  }

  /** A history of schemas, newest first, each grown from the next by one listed addition. */
  ghost predicate History(edits: seq<Edit>, schemas: seq<Document>) {
    |schemas| == |edits| + 1 && forall i :: 0 <= i < |edits| ==> Grows(edits[i], schemas[i + 1], schemas[i])
  }

  /** Projecting the newest schema gives back the oldest. */
  lemma {:induction false} HistoryIsStripped(edits: seq<Edit>, schemas: seq<Document>)
    requires History(edits, schemas)
    ensures Project(edits, schemas[0]) == Some(schemas[|edits|])
  {
    hide Grows, Apply;
    if |edits| > 0 {
      GrowthIsStripped(edits[0], schemas[1], schemas[0]);
      HistoryIsStripped(edits[1..], schemas[1..]);
    }
  }

  // ----- Only growth is stripped -----

  lemma NoneFound<T>(items: seq<Item<T>>, name: string)
    requires forall i :: 0 <= i < |items| ==> items[i].name != name
    ensures Find(items, name).None?
  {
  }

  /** What a removal leaves, with the item put back at its place, is what there was. */
  lemma RemovedIsInserted<T>(items: seq<Item<T>>, item: Item<T>) returns (p: nat)
    requires Named(items, item.name) == [item]
    ensures p <= |Remove(items, item)| && items == Insert(Remove(items, item), p, item)
    ensures Find(Remove(items, item), item.name).None?
  {
    hide Named, Remove;
    RemoveDropsTheOnlyOne(items, item);
    TheOnlyOne(items, item);
    p := NameAt(items, item.name);
    var left := Remove(items, item);
    assert left[..p] == items[..p] && left[p..] == items[p + 1..];
    assert forall i :: 0 <= i < |left| ==> left[i] == if i < p then items[i] else items[i + 1];
    forall i | 0 <= i < |left| ensures left[i].name != item.name {
      assert left[i] == items[if i < p then i else i + 1];
    }
    NoneFound(left, item.name);
  }

  lemma FieldAcceptanceIsGrowth(edit: Edit, before: Document, after: Document)
    requires edit.RemoveField? && Apply(edit, after) == Some(before)
    ensures Grows(edit, before, after)
  {
    hide Insert, Remove, Named;
    var k := NameAt(after.messages, edit.messageName);
    var body := after.messages[k].body;
    var p := RemovedIsInserted(body.fields, edit.field);
    NameStaysAt(after.messages, edit.messageName, body.(fields := Remove(body.fields, edit.field)));
    var less := before.messages[k].body;
    assert body == less.(fields := Insert(less.fields, p, edit.field));
    assert after.messages == before.messages[k := Item(edit.messageName, body)];
  }

  /** A schema is stripped of an addition to some other just when it is that other with the addition. */
  lemma StrippedJustWhenGrown(edit: Edit, before: Document, after: Document)
    ensures Apply(edit, after) == Some(before) <==> Grows(edit, before, after)
  {
    hide Where, AllPresent, Insert, Remove, Named;
    if Grows(edit, before, after) {
      GrowthIsStripped(edit, before, after);
    }
    if Apply(edit, after) == Some(before) {
      match edit {
        case RemoveMessage(message) =>
          var p := RemovedIsInserted(after.messages, message);
          assert after == before.(messages := Insert(before.messages, p, message));
        case RemoveEnum(enumeration) =>
          var p := RemovedIsInserted(after.enums, enumeration);
          assert after == before.(enums := Insert(before.enums, p, enumeration));
        case PopMember(enumName, member, number) =>
          var k := NameAt(after.enums, enumName);
          NameStaysAt(after.enums, enumName, after.enums[k].body - {member});
          assert after.enums[k].body == (after.enums[k].body - {member})[member := number];
          assert after.enums == before.enums[k := Item(enumName, after.enums[k].body)];
        case RemoveField(_, _) => FieldAcceptanceIsGrowth(edit, before, after);
        case DropMethods(service, methods, _) =>
          var k := NameAt(after.services, service);
          NameStaysAt(after.services, service, Where(after.services[k].body, name => name !in methods));
          assert after.services == before.services[k := Item(service, after.services[k].body)];
        case _ =>
      }
    }
  }

  /** An accepted schema has grown from its projection by the listed additions, one at a time: nothing else passes. */
  lemma {:induction false} AcceptedHasAHistory(edits: seq<Edit>, value: Document) returns (schemas: seq<Document>)
    requires Project(edits, value).Some?
    ensures History(edits, schemas) && schemas[0] == value && Some(schemas[|edits|]) == Project(edits, value)
  {
    hide Grows, Apply;
    if |edits| == 0 {
      schemas := [value];
    } else {
      var next := Apply(edits[0], value).value;
      StrippedJustWhenGrown(edits[0], next, value);
      var older := AcceptedHasAHistory(edits[1..], next);
      schemas := [value] + older;
      forall i | 0 <= i < |edits| ensures Grows(edits[i], schemas[i + 1], schemas[i]) {
        if i > 0 {
          assert Grows(edits[1..][i - 1], older[i], older[i - 1]);
        }
      }
    }
  }

  // ----- Agreement -----

  function Names<T>(items: seq<Item<T>>): seq<string> {
    seq(|items|, i requires 0 <= i < |items| => items[i].name)
  }

  /** The items of a name behind the first, which no edit looks at. */
  function Repeats<T>(items: seq<Item<T>>, name: string): seq<Item<T>> {
    if Named(items, name) == [] then [] else Named(items, name)[1..]
  }

  /** The two schemas agree on every message, field, enum, member and method that is not listed, and on their order. */
  ghost predicate Agree(edits: seq<Edit>, a: Document, b: Document) {
    && MessagesAgree(edits, a.messages, b.messages)
    && EnumsAgree(edits, a.enums, b.enums)
    && ServicesAgree(edits, a.services, b.services)
  }

  ghost predicate MessagesAgree(edits: seq<Edit>, a: seq<Item<MessageBody>>, b: seq<Item<MessageBody>>) {
    && Names(Where(a, name => OldMessage(edits, name))) == Names(Where(b, name => OldMessage(edits, name)))
    && forall name :: OldMessage(edits, name) ==>
         SameMessage(edits, name, Find(a, name), Find(b, name)) && Repeats(a, name) == Repeats(b, name)
  }

  ghost predicate EnumsAgree(edits: seq<Edit>, a: seq<Item<Members>>, b: seq<Item<Members>>) {
    && Names(Where(a, name => OldEnum(edits, name))) == Names(Where(b, name => OldEnum(edits, name)))
    && forall name :: OldEnum(edits, name) ==>
         SameEnum(edits, name, Find(a, name), Find(b, name)) && Repeats(a, name) == Repeats(b, name)
  }

  ghost predicate ServicesAgree(edits: seq<Edit>, a: seq<Item<Methods>>, b: seq<Item<Methods>>) {
    && Names(a) == Names(b)
    && forall name :: SameService(edits, name, Find(a, name), Find(b, name)) && Repeats(a, name) == Repeats(b, name)
  }

  predicate SameMessage(edits: seq<Edit>, name: string, a: Option<MessageBody>, b: Option<MessageBody>) {
    match (a, b)
    case (Some(x), Some(y)) =>
      && x.nextId == y.nextId && x.reservedNames == y.reservedNames && x.reservedTags == y.reservedTags
      && Where(x.fields, field => OldField(edits, name, field)) ==
           Where(y.fields, field => OldField(edits, name, field))
    case (None, None) => true
    case _ => false
  }

  ghost predicate SameEnum(edits: seq<Edit>, name: string, a: Option<Members>, b: Option<Members>) {
    match (a, b)
    case (Some(x), Some(y)) => forall member :: OldMember(edits, name, member) ==>
        (member in x <==> member in y) && (member in x && member in y ==> x[member] == y[member])
    case (None, None) => true
    case _ => false
  }

  predicate SameService(edits: seq<Edit>, name: string, a: Option<Methods>, b: Option<Methods>) {
    match (a, b)
    case (Some(x), Some(y)) =>
      Where(x, m => OldMethod(edits, name, m)) == Where(y, m => OldMethod(edits, name, m))
    case (None, None) => true
    case _ => false
  }

  lemma {:induction false} NamesOfKept<T>(
      items: seq<Item<T>>, seen: set<string>, keep: string -> bool, t1: (string, T) -> T, t2: (string, T) -> T)
    ensures
      var k1, k2 := KeepFrom(items, seen, keep, t1), KeepFrom(items, seen, keep, t2);
      |k1| == |k2| && forall i :: 0 <= i < |k1| ==> k1[i].name == k2[i].name
  {
    if |items| > 0 {
      NamesOfKept(items[1..], seen + {items[0].name}, keep, t1, t2);
    }
  }

  lemma NamesOfWhere<T>(items: seq<Item<T>>, keep: string -> bool, trim: (string, T) -> T)
    ensures Names(Keep(items, keep, trim)) == Names(Where(items, keep))
  {
    NamesOfKept(items, {}, keep, trim, (name, body) => body);
  }

  /** Lists are equal when they have the same names in order and the same items under each name. */
  lemma {:induction false} SameNamesSameItems<T(!new)>(a: seq<Item<T>>, b: seq<Item<T>>)
    requires Names(a) == Names(b)
    requires forall name :: Named(a, name) == Named(b, name)
    ensures a == b
  {
    assert |Names(a)| == |a| && |Names(b)| == |b|;
    if |a| > 0 {
      assert Names(a)[0] == a[0].name && Names(b)[0] == b[0].name;
      assert Names(a[1..]) == Names(a)[1..] && Names(b[1..]) == Names(b)[1..];
      assert Named(a, a[0].name)[0] == a[0] && Named(b, b[0].name)[0] == b[0];
      forall name ensures Named(a[1..], name) == Named(b[1..], name) {
        assert Named(a, name) == Named(b, name);
        var first := if a[0].name == name then [a[0]] else [];
        assert Named(a, name) == first + Named(a[1..], name) && Named(b, name) == first + Named(b[1..], name);
        assert Named(a, name)[|first|..] == Named(a[1..], name) && Named(b, name)[|first|..] == Named(b[1..], name);
      }
      SameNamesSameItems(a[1..], b[1..]);
    }
  }

  function FindTrimmed<T>(items: seq<Item<T>>, trim: (string, T) -> T, name: string): Option<T> {
    match Find(items, name)
    case Some(body) => Some(trim(name, body))
    case None => None
  }

  lemma {:induction false} OnlyKeptNames<T>(
      items: seq<Item<T>>, seen: set<string>, keep: string -> bool, trim: (string, T) -> T)
    ensures forall i :: 0 <= i < |KeepFrom(items, seen, keep, trim)| ==> keep(KeepFrom(items, seen, keep, trim)[i].name)
  {
    if |items| > 0 {
      OnlyKeptNames(items[1..], seen + {items[0].name}, keep, trim);
    }
  }

  /** Under one name: the same first body once trimmed, and the same repetitions. */
  predicate SameUnder<T(==)>(a: seq<Item<T>>, b: seq<Item<T>>, trim: (string, T) -> T, name: string) {
    FindTrimmed(a, trim, name) == FindTrimmed(b, trim, name) && Repeats(a, name) == Repeats(b, name)
  }

  lemma SameHeadAndRepeats<T>(a: seq<Item<T>>, b: seq<Item<T>>, trim: (string, T) -> T, name: string)
    ensures HeadTrimmed(Named(a, name), trim) == HeadTrimmed(Named(b, name), trim) <==> SameUnder(a, b, trim, name)
  {
    AllOfOneName(a, name);
    AllOfOneName(b, name);
    var x, y := HeadTrimmed(Named(a, name), trim), HeadTrimmed(Named(b, name), trim);
    assert x != [] ==> x[1..] == Repeats(a, name);
    assert y != [] ==> y[1..] == Repeats(b, name);
  }

  /** Two kept lists are equal just when they keep the same names in order and what each name keeps is the same. */
  lemma KeptListsAgree<T(!new)>(a: seq<Item<T>>, b: seq<Item<T>>, keep: string -> bool, trim: (string, T) -> T)
    ensures Keep(a, keep, trim) == Keep(b, keep, trim)
       <==> && Names(Where(a, keep)) == Names(Where(b, keep))
            && forall name :: keep(name) ==> SameUnder(a, b, trim, name)
  {
    hide Where, Names, Named, HeadTrimmed, SameUnder, KeepFrom;
    var ka, kb := Keep(a, keep, trim), Keep(b, keep, trim);
    NamesOfWhere(a, keep, trim);
    NamesOfWhere(b, keep, trim);
    forall name | keep(name) ensures Named(ka, name) == Named(kb, name) <==> SameUnder(a, b, trim, name) {
      NamedOfKept(a, {}, keep, trim, name);
      NamedOfKept(b, {}, keep, trim, name);
      SameHeadAndRepeats(a, b, trim, name);
    }
    if Names(ka) == Names(kb) && forall name :: keep(name) ==> SameUnder(a, b, trim, name) {
      OnlyKeptNames(a, {}, keep, trim);
      OnlyKeptNames(b, {}, keep, trim);
      forall name | !keep(name) ensures Named(ka, name) == Named(kb, name) {
        NoneNamed(ka, name);
        NoneNamed(kb, name);
      }
      SameNamesSameItems(ka, kb);
    }
  }

  lemma ProjectedMessagesAgree(edits: seq<Edit>, a: Document, b: Document)
    ensures Outside(edits, a).messages == Outside(edits, b).messages <==> MessagesAgree(edits, a.messages, b.messages)
  {
    hide Where, Find, OldMessage, Repeats, Keep;
    KeptListsAgree(a.messages, b.messages, name => OldMessage(edits, name),
                   (name, body) => OldSlots(edits, name, body));
    forall name
      ensures SameUnder(a.messages, b.messages, (name, body) => OldSlots(edits, name, body), name)
         <==> && SameMessage(edits, name, Find(a.messages, name), Find(b.messages, name))
              && Repeats(a.messages, name) == Repeats(b.messages, name)
    {
    }
  }

  lemma ProjectedEnumsAgree(edits: seq<Edit>, a: Document, b: Document)
    ensures Outside(edits, a).enums == Outside(edits, b).enums <==> EnumsAgree(edits, a.enums, b.enums)
  {
    hide Where, Find, OldEnum, OldMember, Repeats, Keep;
    KeptListsAgree(a.enums, b.enums, name => OldEnum(edits, name),
                   (name, members) => OldMembers(edits, name, members));
    forall name
      ensures SameUnder(a.enums, b.enums, (name, members) => OldMembers(edits, name, members), name)
         <==> && SameEnum(edits, name, Find(a.enums, name), Find(b.enums, name))
              && Repeats(a.enums, name) == Repeats(b.enums, name)
    {
      if Find(a.enums, name).Some? && Find(b.enums, name).Some? {
        SameMembers(edits, name, Find(a.enums, name), Find(b.enums, name));
      }
    }
  }

  lemma SameMembers(edits: seq<Edit>, name: string, a: Option<Members>, b: Option<Members>)
    requires a.Some? && b.Some?
    ensures SameEnum(edits, name, a, b) <==> OldMembers(edits, name, a.value) == OldMembers(edits, name, b.value)
  {
    hide OldMember;
    var x, y := OldMembers(edits, name, a.value), OldMembers(edits, name, b.value);
    if x == y {
      forall member | OldMember(edits, name, member)
        ensures member in a.value <==> member in b.value
        ensures member in a.value && member in b.value ==> a.value[member] == b.value[member] {
        assert member in a.value <==> member in x;
        assert member in b.value <==> member in y;
      }
    }
  }

  lemma ProjectedServicesAgree(edits: seq<Edit>, a: Document, b: Document)
    ensures Outside(edits, a).services == Outside(edits, b).services <==> ServicesAgree(edits, a.services, b.services)
  {
    hide Find, Repeats, Keep;
    KeptListsAgree(a.services, b.services, name => true,
                   (name, methods) => OldMethods(edits, name, methods));
    WhereNothingChanges(a.services, name => true);
    WhereNothingChanges(b.services, name => true);
    forall name
      ensures SameUnder(a.services, b.services, (name, methods) => OldMethods(edits, name, methods), name)
         <==> && SameService(edits, name, Find(a.services, name), Find(b.services, name))
              && Repeats(a.services, name) == Repeats(b.services, name)
    {
    }
  }

  /**
    Accepted schemas have one projection just when they agree on all that is not listed: no old
    slot changes unseen.
  */
  lemma SameProjectionJustWhenAgreed(edits: seq<Edit>, a: Document, b: Document)
    requires Project(edits, a).Some? && Project(edits, b).Some?
    ensures Project(edits, a) == Project(edits, b) <==> Agree(edits, a, b)
  {
    hide MessagesAgree, EnumsAgree, ServicesAgree;
    ProjectionIsTheRest(edits, a);
    ProjectionIsTheRest(edits, b);
    ProjectedMessagesAgree(edits, a, b);
    ProjectedEnumsAgree(edits, a, b);
    ProjectedServicesAgree(edits, a, b);
  }
}
