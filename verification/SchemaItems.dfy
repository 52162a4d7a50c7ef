/** Lists of named things: lookups by name, and lists kept or trimmed by name. */
module SchemaItems {

  import opened Wrappers

  datatype Item<+T> = Item(name: string, body: T)

  /** The first item of a name: its position, or the length when there is none. */
  function NameAt<T>(items: seq<Item<T>>, name: string): (k: nat)
    ensures k <= |items|
    ensures k < |items| ==> items[k].name == name
    ensures forall i :: 0 <= i < k ==> items[i].name != name
  {
    if |items| == 0 || items[0].name == name then 0 else 1 + NameAt(items[1..], name)
  }

  function Find<T>(items: seq<Item<T>>, name: string): Option<T> {
    var k := NameAt(items, name);
    if k < |items| then Some(items[k].body) else None
  }

  /** Every item of a name, in order. */
  function Named<T>(items: seq<Item<T>>, name: string): seq<Item<T>> {
    if |items| == 0 then []
    else (if items[0].name == name then [items[0]] else []) + Named(items[1..], name)
  }

  /** The items whose names are kept, the first of each name trimmed; `seen` holds the names met before. */
  function KeepFrom<T>(items: seq<Item<T>>, seen: set<string>, keep: string -> bool,
                       trim: (string, T) -> T): seq<Item<T>>
  {
    if |items| == 0 then []
    else
      var name, body := items[0].name, items[0].body;
      (if keep(name) then [Item(name, if name in seen then body else trim(name, body))] else [])
      + KeepFrom(items[1..], seen + {name}, keep, trim)
  }

  /** The items whose names are kept, the first of each name trimmed: what `next` finds is the first. */
  function Keep<T>(items: seq<Item<T>>, keep: string -> bool, trim: (string, T) -> T): seq<Item<T>> {
    KeepFrom(items, {}, keep, trim)
  }

  function Where<T>(items: seq<Item<T>>, keep: string -> bool): seq<Item<T>> {
    Keep(items, keep, (name, body) => body)
  }

  lemma {:induction false} KeepNothingChanges<T>(
      items: seq<Item<T>>, seen: set<string>, keep: string -> bool, trim: (string, T) -> T)
    requires forall i :: 0 <= i < |items| ==> keep(items[i].name)
    requires forall i :: 0 <= i < |items| && items[i].name !in seen ==>
               trim(items[i].name, items[i].body) == items[i].body
    ensures KeepFrom(items, seen, keep, trim) == items
  {
    if |items| > 0 {
      KeepNothingChanges(items[1..], seen + {items[0].name}, keep, trim);
    }
  }

  lemma WhereNothingChanges<T>(items: seq<Item<T>>, keep: string -> bool)
    requires forall i :: 0 <= i < |items| ==> keep(items[i].name)
    ensures Where(items, keep) == items
  {
    KeepNothingChanges(items, {}, keep, (name, body) => body);
  }

  /** Only the first item of one name is trimmed. */
  lemma {:induction false} KeepTrimsOne<T>(
      items: seq<Item<T>>, seen: set<string>, name: string, keep: string -> bool, trim: (string, T) -> T)
    requires NameAt(items, name) < |items| && name !in seen && forall i :: 0 <= i < |items| ==> keep(items[i].name)
    requires forall i :: 0 <= i < |items| && items[i].name != name ==>
               trim(items[i].name, items[i].body) == items[i].body
    ensures
      var k := NameAt(items, name);
      KeepFrom(items, seen, keep, trim) == items[k := Item(name, trim(name, items[k].body))]
  {
    if items[0].name == name {
      KeepNothingChanges(items[1..], seen + {name}, keep, trim);
    } else {
      KeepTrimsOne(items[1..], seen + {items[0].name}, name, keep, trim);
    }
  }

  /** Keeping twice keeps what both keep; a name that is kept at all is met by both. */
  lemma {:induction false} KeepTwice<T(!new)>(items: seq<Item<T>>, seen: set<string>, met: set<string>,
      k1: string -> bool, t1: (string, T) -> T, k2: string -> bool, t2: (string, T) -> T,
      keep: string -> bool, trim: (string, T) -> T)
    requires met <= seen && forall n :: n in seen && k1(n) ==> n in met
    requires forall n :: keep(n) <==> k1(n) && k2(n)
    requires forall n, b :: trim(n, b) == t2(n, t1(n, b))
    ensures KeepFrom(KeepFrom(items, seen, k1, t1), met, k2, t2) == KeepFrom(items, seen, keep, trim)
  {
    if |items| > 0 {
      var name, body := items[0].name, items[0].body;
      var rest := KeepFrom(items[1..], seen + {name}, k1, t1);
      if k1(name) {
        KeepTwice(items[1..], seen + {name}, met + {name}, k1, t1, k2, t2, keep, trim);
        var first := Item(name, if name in seen then body else t1(name, body));
        assert KeepFrom(items, seen, k1, t1) == [first] + rest && ([first] + rest)[1..] == rest;
      } else {
        KeepTwice(items[1..], seen + {name}, met, k1, t1, k2, t2, keep, trim);
        assert KeepFrom(items, seen, k1, t1) == rest;
      }
    }
  }

  /** Two ways of keeping that agree on every name give the same list. */
  lemma {:induction false} KeepAlike<T(!new)>(items: seq<Item<T>>, seen: set<string>,
      k1: string -> bool, t1: (string, T) -> T, k2: string -> bool, t2: (string, T) -> T)
    requires forall n :: k1(n) <==> k2(n)
    requires forall n, b :: t1(n, b) == t2(n, b)
    ensures KeepFrom(items, seen, k1, t1) == KeepFrom(items, seen, k2, t2)
  {
    if |items| > 0 {
      KeepAlike(items[1..], seen + {items[0].name}, k1, t1, k2, t2);
    }
  }

  lemma KeepIsWhere<T(!new)>(items: seq<Item<T>>, keep: string -> bool, trim: (string, T) -> T, k: string -> bool)
    requires forall n :: keep(n) <==> k(n)
    requires forall n, b :: trim(n, b) == b
    ensures Keep(items, keep, trim) == Where(items, k)
  {
    KeepAlike(items, {}, keep, trim, k, (name, body) => body);
  }

  lemma WhereAlike<T(!new)>(items: seq<Item<T>>, k1: string -> bool, k2: string -> bool)
    requires forall n :: k1(n) <==> k2(n)
    ensures Where(items, k1) == Where(items, k2)
  {
    KeepIsWhere(items, k1, (name, body) => body, k2);
  }

  /** The items of one name with the first trimmed. */
  function HeadTrimmed<T>(items: seq<Item<T>>, trim: (string, T) -> T): seq<Item<T>> {
    if |items| == 0 then [] else [Item(items[0].name, trim(items[0].name, items[0].body))] + items[1..]
  }

  lemma {:induction false} NamedOfKept<T>(
      items: seq<Item<T>>, seen: set<string>, keep: string -> bool, trim: (string, T) -> T, name: string)
    requires keep(name)
    ensures Named(KeepFrom(items, seen, keep, trim), name)
         == if name in seen then Named(items, name) else HeadTrimmed(Named(items, name), trim)
  {
    if |items| > 0 {
      var rest := KeepFrom(items[1..], seen + {items[0].name}, keep, trim);
      NamedOfKept(items[1..], seen + {items[0].name}, keep, trim, name);
      if keep(items[0].name) {
        assert KeepFrom(items, seen, keep, trim)[1..] == rest;
      } else {
        assert KeepFrom(items, seen, keep, trim) == rest;
      }
    }
  }

  lemma {:induction false} KeepFinds<T>(
      items: seq<Item<T>>, seen: set<string>, keep: string -> bool, trim: (string, T) -> T, name: string)
    requires name !in seen || !keep(name)
    ensures Find(KeepFrom(items, seen, keep, trim), name) ==
            match Find(items, name)
            case Some(body) => (if keep(name) then Some(trim(name, body)) else None)
            case None => None
  {
    if |items| > 0 {
      var rest := KeepFrom(items[1..], seen + {items[0].name}, keep, trim);
      if items[0].name != name || !keep(name) {
        KeepFinds(items[1..], seen + {items[0].name}, keep, trim, name);
      }
      if keep(items[0].name) {
        assert KeepFrom(items, seen, keep, trim)[1..] == rest;
      } else {
        assert KeepFrom(items, seen, keep, trim) == rest;
      }
    }
  }

  /** A name that is kept and not trimmed has the same items before and after. */
  lemma KeepsNamed<T>(items: seq<Item<T>>, keep: string -> bool, trim: (string, T) -> T, name: string)
    requires keep(name) && forall body :: trim(name, body) == body
    ensures Named(Keep(items, keep, trim), name) == Named(items, name)
  {
    NamedOfKept(items, {}, keep, trim, name);
    AllOfOneName(items, name);
  }

  lemma {:induction false} AllOfOneName<T>(items: seq<Item<T>>, name: string)
    ensures forall i :: 0 <= i < |Named(items, name)| ==> Named(items, name)[i].name == name
    ensures Find(items, name) == if Named(items, name) == [] then None else Some(Named(items, name)[0].body)
  {
    if |items| > 0 {
      AllOfOneName(items[1..], name);
    }
  }

  lemma WhereTwice<T(!new)>(items: seq<Item<T>>, k1: string -> bool, k2: string -> bool, keep: string -> bool)
    requires forall n :: keep(n) <==> k1(n) && k2(n)
    ensures Where(Where(items, k1), k2) == Where(items, keep)
  {
    KeepTwice(items, {}, {}, k1, (name, body) => body, k2, (name, body) => body, keep, (name, body) => body);
  }

  lemma WhereFinds<T>(items: seq<Item<T>>, keep: string -> bool, name: string)
    requires keep(name)
    ensures Find(Where(items, keep), name) == Find(items, name)
  {
    KeepFinds(items, {}, keep, (name, body) => body, name);
  }

  lemma WhereNamed<T>(items: seq<Item<T>>, keep: string -> bool, name: string)
    requires keep(name)
    ensures Named(Where(items, keep), name) == Named(items, name)
  {
    NamedOfKept(items, {}, keep, (name, body) => body, name);
  }

  /** Only the item at one position is dropped. */
  lemma {:induction false} WhereDropsOne<T>(items: seq<Item<T>>, seen: set<string>, k: nat, keep: string -> bool)
    requires k < |items| && !keep(items[k].name)
    requires forall i :: 0 <= i < |items| && i != k ==> keep(items[i].name)
    ensures KeepFrom(items, seen, keep, (name, body) => body) == items[..k] + items[k + 1..]
  {
    if k == 0 {
      KeepNothingChanges(items[1..], seen + {items[0].name}, keep, (name, body) => body);
    } else {
      WhereDropsOne(items[1..], seen + {items[0].name}, k - 1, keep);
    }
  }

  /** When exactly one item has a name, the first of that name is the only one. */
  lemma {:induction false} TheOnlyOne<T>(items: seq<Item<T>>, item: Item<T>)
    requires Named(items, item.name) == [item]
    ensures
      var k := NameAt(items, item.name);
      k < |items| && items[k] == item && forall i :: 0 <= i < |items| && i != k ==> items[i].name != item.name
  {
    if items[0].name == item.name {
      var later := Named(items[1..], item.name);
      assert Named(items, item.name) == [items[0]] + later;
      assert |later| == 0 && ([items[0]] + later)[0] == items[0];
      NoneNamed(items[1..], item.name);
    } else {
      TheOnlyOne(items[1..], item);
    }
  }

  lemma {:induction false} NoneNamed<T>(items: seq<Item<T>>, name: string)
    ensures Named(items, name) == [] <==> forall i :: 0 <= i < |items| ==> items[i].name != name
  {
    if |items| > 0 {
      NoneNamed(items[1..], name);
      assert forall i :: 0 < i < |items| ==> items[i] == items[1..][i - 1];
    }
  }
}
