/** Lists of keyed values, and looking a key up in one. */
module Lookup {
  import opened Basics

  /** What a dictionary holds under one key. */
  datatype Keyed<V> = Keyed(key: string, value: V)

  function Keys<V>(list: seq<Keyed<V>>): (keys: seq<string>)
    ensures |keys| == |list| && forall i :: 0 <= i < |list| ==> keys[i] == list[i].key
  {
    seq(|list|, i requires 0 <= i < |list| => list[i].key)
  }

  function Find<V>(list: seq<Keyed<V>>, key: string): Option<V>
  {
    if list == [] then None
    else if list[0].key == key then Some(list[0].value)
    else Find(list[1..], key)
  }

  /** The first entry of a key is the one that is found. */
  lemma {:induction false} FindFirst<V>(list: seq<Keyed<V>>, i: nat)
    requires i < |list| && forall j :: 0 <= j < i ==> list[j].key != list[i].key
    ensures Find(list, list[i].key) == Some(list[i].value)
    decreases i
  {
    if i == 0 {
    } else {
      assert list[0].key != list[i].key;
      FindFirst(list[1..], i - 1);
    }
  }

  lemma FindAt<V>(list: seq<Keyed<V>>, i: nat)
    requires i < |list| && NoDuplicates(Keys(list))
    ensures Find(list, list[i].key) == Some(list[i].value)
  {
    forall j | 0 <= j < i ensures list[j].key != list[i].key {
      assert Keys(list)[j] != Keys(list)[i];
    }
    FindFirst(list, i);
  }
}
