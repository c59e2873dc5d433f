/** Documents as dictionaries: lookup, assignment, and equality that does not
    see the order of the entries. */
module Dictionary {
  import opened Basics
  import opened Lookup
  import opened Toml

  /** Assignment keeps the position of an existing key and appends a new one. */
  function Set<V>(list: seq<Keyed<V>>, key: string, value: V): seq<Keyed<V>>
  {
    if list == [] then [Keyed(key, value)]
    else if list[0].key == key then [Keyed(key, value)] + list[1..]
    else [list[0]] + Set(list[1..], key, value)
  }

  /** Keys are defined once, as in any dictionary. */
  ghost predicate Distinct(doc: Doc)
  {
    && NoDuplicates(Keys(doc))
    && forall i :: 0 <= i < |doc| && doc[i].value.Table? ==> NoDuplicates(Keys(doc[i].value.entries))
  }

  ghost predicate SameItem(a: Option<Item>, b: Option<Item>)
  {
    match (a, b)
    case (None, None) => true
    case (Some(Leaf(v)), Some(Leaf(w))) => v == w
    case (Some(Table(es)), Some(Table(fs))) => SameTable(es, fs)
    case _ => false
  }

  ghost predicate SameTable(a: seq<Entry>, b: seq<Entry>)
  {
    forall k :: Find(a, k) == Find(b, k)
  }

  /** Equal as dictionaries, tables included. */
  ghost predicate SameDict(a: Doc, b: Doc)
  {
    forall k :: SameItem(Find(a, k), Find(b, k))
  }

  // ---------------------------------------------------------------------
  // Lookup and assignment
  // ---------------------------------------------------------------------

  lemma HeadIsFresh<V>(doc: seq<Keyed<V>>)
    requires doc != [] && NoDuplicates(Keys(doc))
    ensures NoDuplicates(Keys(doc[1..])) && doc[0].key !in Keys(doc[1..])
  {
    assert Keys(doc[1..]) == Keys(doc)[1..];
    assert forall i :: 0 < i < |doc| ==> Keys(doc)[i] != Keys(doc)[0];
  }

  lemma {:induction false} FindIsMembership<V>(doc: seq<Keyed<V>>, key: string)
    requires NoDuplicates(Keys(doc))
    ensures forall item: V :: Find(doc, key) == Some(item) <==> Keyed(key, item) in doc
  {
    if doc == [] {
    } else {
      HeadIsFresh(doc);
      FindIsMembership(doc[1..], key);
      FirstApart(doc);
      if doc[0].key == key {
        forall top | top in doc[1..] ensures top.key != key {
          var i :| 0 <= i < |doc[1..]| && doc[1..][i] == top;
          assert Keys(doc[1..])[i] == top.key;
        }
      }
    }
  }

  lemma {:induction false} SetFind<V>(list: seq<Keyed<V>>, key: string, value: V, k: string)
    ensures Find(Set(list, key, value), k) == if k == key then Some(value) else Find(list, k)
  {
    if list != [] && list[0].key != key {
      SetFind(list[1..], key, value, k);
      assert Set(list, key, value)[1..] == Set(list[1..], key, value);
    }
  }

  lemma KeysOfCons<V>(head: Keyed<V>, rest: seq<Keyed<V>>)
    ensures Keys([head] + rest) == [head.key] + Keys(rest)
  {
  }

  lemma ConsAndMembership(head: string, keys: seq<string>, key: string)
    ensures key in [head] + keys <==> key == head || key in keys
    ensures [head] + keys + [key] == [head] + (keys + [key])
  {
  }

  lemma {:induction false} SetKeys<V>(list: seq<Keyed<V>>, key: string, value: V)
    ensures Keys(Set(list, key, value)) == if key in Keys(list) then Keys(list) else Keys(list) + [key]
  {
    if list == [] {
    } else {
      var rest := list[1..];
      assert list == [list[0]] + rest;
      KeysOfCons(list[0], rest);
      KeysOfCons(Keyed(key, value), rest);
      KeysOfCons(list[0], Set(rest, key, value));
      SetKeys(rest, key, value);
      ConsAndMembership(list[0].key, Keys(rest), key);
    }
  }

  lemma {:induction false} SetMembers<V>(doc: seq<Keyed<V>>, key: string, item: V)
    ensures forall top :: top in Set(doc, key, item) ==> top == Keyed(key, item) || top in doc
  {
    if doc != [] && doc[0].key != key {
      SetMembers(doc[1..], key, item);
    }
  }

  lemma {:induction false} SetAgain<V>(list: seq<Keyed<V>>, key: string, value: V)
    requires Find(list, key) == Some(value)
    ensures Set(list, key, value) == list
  {
    if list[0].key != key {
      SetAgain(list[1..], key, value);
    }
  }
}
