/** Configuration documents: the deep merge of an overlay over a base, and the
    precedence of base file, overlay and environment. */
module Merge {
  import opened Basics

  /** A TOML value; anything that is not a table is replaced whole. */
  datatype Value = Leaf(text: string) | Table(entries: Doc)

  type Doc = map<string, Value>

  /** Tables merge key by key; anything else in the overlay replaces the base. */
  function Merge(base: Doc, overlay: Doc): Doc
    decreases Table(overlay)
  {
    map key | key in base.Keys + overlay.Keys ::
      if key !in overlay then base[key]
      else if key in base && base[key].Table? && overlay[key].Table?
      then Table(Merge(base[key].entries, overlay[key].entries))
      else overlay[key]
  }

  // ---------------------------------------------------------------------
  // The merge as it runs: dictionaries on the heap, sharing subtables
  // ---------------------------------------------------------------------

  datatype Node = Scalar(text: string) | Nested(dict: Dict)

  class Dict {
    var entries: map<string, Node>

    constructor (entries: map<string, Node>)
      ensures this.entries == entries
    {
      this.entries := entries;
    }
  }

  /** How a value lies on the heap: a table has its own dictionary and a layout
      for each key, all of them made of the dictionaries in `all`. Layouts of
      different keys may have dictionaries in common. */
  datatype Layout = Plain | Own(dict: Dict, below: map<string, Layout>, all: set<Dict>)

  function Dicts(l: Layout): set<Dict>
  {
    if l.Own? then l.all else {}
  }

  function At(l: Layout, key: string): Layout
  {
    if l.Own? && key in l.below then l.below[key] else Plain
  }

  predicate Contains(l: Layout)
  {
    l.Own? ==> l.dict in l.all && forall key :: key in l.below ==> Dicts(l.below[key]) <= l.all
  }

  /** The node, with the dictionaries of its layout, spells out the value. */
  ghost predicate Spells(node: Node, v: Value, l: Layout)
    reads Dicts(l)
    decreases v
  {
    match v
    case Leaf(text) => node == Scalar(text) && l == Plain
    case Table(entries) =>
      && l.Own? && Contains(l) && node == Nested(l.dict)
      && l.dict.entries.Keys == entries.Keys == l.below.Keys
      && forall key :: key in entries ==> Spells(l.dict.entries[key], entries[key], l.below[key])
  }

  lemma EntrySpells(d: Dict, doc: Doc, l: Layout, key: string)
    requires Spells(Nested(d), Table(doc), l) && key in doc
    ensures key in d.entries && Spells(d.entries[key], doc[key], At(l, key)) && Dicts(At(l, key)) <= Dicts(l)
  {
  }

  lemma EntriesSpell(d: Dict, doc: Doc, l: Layout)
    requires Spells(Nested(d), Table(doc), l)
    ensures Contains(l) && d.entries.Keys == doc.Keys
    ensures forall key :: key in doc ==> Spells(d.entries[key], doc[key], At(l, key))
  {
  }

  /** No dictionary occurs twice: the value is a tree, as a parsed one is. */
  predicate IsTree(l: Layout)
  {
    l.Own? ==>
      && (forall key :: key in l.below ==> IsTree(l.below[key]) && l.dict !in Dicts(l.below[key]))
      && (forall i, j :: i in l.below && j in l.below && i != j ==> Dicts(l.below[i]) !! Dicts(l.below[j]))
  }

  /** The layout takes its dictionaries from two others and a set of new ones,
      and repeats none if the two repeat none. */
  predicate DrawnFrom(l: Layout, x: Layout, y: Layout, made: set<Dict>)
  {
    && Dicts(l) <= Dicts(x) + Dicts(y) + made
    && (IsTree(x) && IsTree(y) && Dicts(x) !! Dicts(y) ==> IsTree(l))
  }

  predicate BothTables(e: Option<Value>, v: Value)
  {
    e.Some? && e.value.Table? && v.Table?
  }

  function EntryOf(e: Option<Value>, v: Value): Value
  {
    if BothTables(e, v) then Table(Merge(e.value.entries, v.entries)) else v
  }

  function MergedAt(b: Doc, o: Doc, key: string): Value
    requires key in o
  {
    EntryOf(if key in b then Some(b[key]) else None, o[key])
  }

  /** The entry a key gets: two tables are merged into a new one, anything else
      of the overlay's is taken over as it is. */
  method MergeEntry(existing: Option<Node>, value: Node, ghost e: Option<Value>, ghost v: Value,
                    ghost le: Layout, ghost lv: Layout)
    returns (node: Node, ghost l: Layout, ghost made: set<Dict>)
    requires existing.Some? <==> e.Some?
    requires e.Some? ==> Spells(existing.value, e.value, le)
    requires Spells(value, v, lv)
    ensures fresh(made)
    ensures Spells(node, EntryOf(e, v), l)
    ensures DrawnFrom(l, le, lv, made)
    decreases v, 2
  {
    node, l, made := value, lv, {};
    if existing.Some? && existing.value.Nested? && value.Nested? {
      var sub;
      sub, l, made := DeepMerge(existing.value.dict, value.dict, e.value.entries, v.entries, le, lv);
      node := Nested(sub);
    }
  }

  /** The entries of the keys done so far spell out what the merge has there. */
  ghost predicate Filled(entries: map<string, Node>, result: Doc, ls: map<string, Layout>, world: set<Dict>)
    reads world
  {
    forall key :: key in ls ==>
      key in entries && key in result && Dicts(ls[key]) <= world && Spells(entries[key], result[key], ls[key])
  }

  twostate lemma FilledStays(new entries: map<string, Node>, new result: Doc, new ls: map<string, Layout>,
                             new world: set<Dict>)
    requires old(allocated(entries)) && old(allocated(ls)) && old(allocated(world)) && old(allocated(result))
    requires old(Filled(entries, result, ls, world)) && unchanged(world)
    ensures Filled(entries, result, ls, world)
  {
  }

  lemma FillOne(entries: map<string, Node>, result: Doc, ls: map<string, Layout>, world: set<Dict>,
                key: string, node: Node, l: Layout, larger: set<Dict>)
    requires Filled(entries, result, ls, world) && key in result && Spells(node, result[key], l)
    requires world <= larger && Dicts(l) <= larger
    ensures Filled(entries[key := node], result, ls[key := l], larger)
  {
    var (entries', ls') := (entries[key := node], ls[key := l]);
    forall k | k in ls'
      ensures k in entries' && k in result && Dicts(ls'[k]) <= larger && Spells(entries'[k], result[k], ls'[k])
    {
      assert k != key ==> k in ls;
    }
  }

  /** Each key done so far draws on its own part of either document and on
      dictionaries made for it alone, all of them in `below`. */
  ghost predicate Drawn(ls: map<string, Layout>, made: map<string, set<Dict>>, below: set<Dict>, lb: Layout, lo: Layout)
  {
    && ls.Keys == made.Keys
    && (forall key :: key in ls ==> DrawnFrom(ls[key], At(lb, key), At(lo, key), made[key]))
    && (forall key :: key in made ==> made[key] <= below)
    && (forall i, j :: i in made && j in made && i != j ==> made[i] !! made[j])
  }

  lemma DrawOne(ls: map<string, Layout>, made: map<string, set<Dict>>, below: set<Dict>, lb: Layout, lo: Layout,
                key: string, l: Layout, more: set<Dict>)
    requires Drawn(ls, made, below, lb, lo) && DrawnFrom(l, At(lb, key), At(lo, key), more) && below !! more
    ensures Drawn(ls[key := l], made[key := more], below + more, lb, lo)
  {
    var made' := made[key := more];
    forall k | k in made' ensures made'[k] <= below + more {
      assert k != key ==> k in made;
    }
    forall i, j | i in made' && j in made' && i != j ensures made'[i] !! made'[j] {
      assert (i != key ==> i in made && made[i] <= below) && (j != key ==> j in made && made[j] <= below);
    }
  }

  lemma BelowIsWithin(l: Layout, key: string)
    requires Contains(l)
    ensures Dicts(At(l, key)) <= Dicts(l)
  {
  }

  /** One turn of the loop: merge the overlay's value for a key into place. */
  method MergeKey(merged: Dict, key: string, value: Node, ghost b: Doc, ghost o: Doc, ghost lb: Layout, ghost lo: Layout,
                  ghost result: Doc, ghost ls: map<string, Layout>, ghost world: set<Dict>)
    returns (ghost l: Layout, ghost made: set<Dict>)
    requires key in o && Spells(value, o[key], At(lo, key))
    requires key in result && result[key] == MergedAt(b, o, key)
    requires key in merged.entries <==> key in b
    requires key in b ==> Spells(merged.entries[key], b[key], At(lb, key))
    requires merged !in Dicts(At(lb, key)) + Dicts(At(lo, key)) + world
    requires Filled(merged.entries, result, ls, world)
    modifies merged
    ensures fresh(made)
    ensures key in merged.entries && merged.entries == old(merged.entries)[key := merged.entries[key]]
    ensures Spells(merged.entries[key], result[key], l)
    ensures DrawnFrom(l, At(lb, key), At(lo, key), made)
    ensures Filled(old(merged.entries), result, ls, world)
    decreases o[key], 3
  {
    var node;
    node, l, made := MergeEntry(if key in merged.entries then Some(merged.entries[key]) else None, value,
                                if key in b then Some(b[key]) else None, o[key], At(lb, key), At(lo, key));
    assert Spells(node, MergedAt(b, o, key), l);
    merged.entries := merged.entries[key := node];
    FilledStays(old(merged.entries), result, ls, world);
  }

  /** How far the loop has come: every key is either done and filled or still to
      do, and the base's other entries are as they were copied. */
  ghost predicate Progress(entries: map<string, Node>, base: map<string, Node>, result: Doc, lb: Layout, lo: Layout,
                           ls: map<string, Layout>, made: map<string, set<Dict>>, below: set<Dict>,
                           all: set<string>, todo: set<string>)
    reads Dicts(lb) + Dicts(lo) + below
  {
    && ls.Keys !! todo && ls.Keys + todo == all
    && entries.Keys == base.Keys + ls.Keys
    && (forall key :: key in base && key !in ls ==> entries[key] == base[key])
    && Filled(entries, result, ls, Dicts(lb) + Dicts(lo) + below)
    && Drawn(ls, made, below, lb, lo)
  }

  lemma KeysOne(entries: map<string, Node>, base: map<string, Node>, ls: map<string, Layout>,
                all: set<string>, todo: set<string>, key: string, node: Node, l: Layout)
    requires ls.Keys !! todo && ls.Keys + todo == all && key in todo
    requires entries.Keys == base.Keys + ls.Keys
    ensures ls[key := l].Keys !! todo - {key} && ls[key := l].Keys + (todo - {key}) == all
    ensures entries[key := node].Keys == base.Keys + ls[key := l].Keys
  {
    assert ls[key := l].Keys == ls.Keys + {key};
  }

  lemma ProgressOne(entries: map<string, Node>, base: map<string, Node>, result: Doc, lb: Layout, lo: Layout,
                    ls: map<string, Layout>, made: map<string, set<Dict>>, below: set<Dict>,
                    all: set<string>, todo: set<string>, key: string, node: Node, l: Layout, more: set<Dict>)
    requires Progress(entries, base, result, lb, lo, ls, made, below, all, todo)
    requires key in todo && key in result && Spells(node, result[key], l)
    requires DrawnFrom(l, At(lb, key), At(lo, key), more) && below !! more
    requires Dicts(At(lb, key)) <= Dicts(lb) && Dicts(At(lo, key)) <= Dicts(lo)
    ensures Progress(entries[key := node], base, result, lb, lo, ls[key := l], made[key := more], below + more,
                     all, todo - {key})
  {
    KeysOne(entries, base, ls, all, todo, key, node, l);
    FillOne(entries, result, ls, Dicts(lb) + Dicts(lo) + below, key, node, l, Dicts(lb) + Dicts(lo) + (below + more));
    DrawOne(ls, made, below, lb, lo, key, l, more);
  }

  /** The same turn, seen from the whole documents; it leaves the progress made
      before as it was. */
  method MergeAt(merged: Dict, key: string, base: Dict, overlay: Dict, ghost b: Doc, ghost o: Doc, ghost result: Doc,
                 ghost lb: Layout, ghost lo: Layout, ghost ls: map<string, Layout>, ghost world: set<Dict>)
    returns (ghost l: Layout, ghost more: set<Dict>)
    requires Spells(Nested(base), Table(b), lb) && Spells(Nested(overlay), Table(o), lo)
    requires key in o && key in result && result[key] == MergedAt(b, o, key)
    requires merged !in Dicts(lb) + Dicts(lo) + world
    requires key in merged.entries <==> key in base.entries
    requires key in base.entries ==> merged.entries[key] == base.entries[key]
    requires Filled(merged.entries, result, ls, world)
    modifies merged
    ensures fresh(more)
    ensures key in merged.entries && merged.entries == old(merged.entries)[key := merged.entries[key]]
    ensures Spells(merged.entries[key], result[key], l)
    ensures DrawnFrom(l, At(lb, key), At(lo, key), more)
    ensures Dicts(At(lb, key)) <= Dicts(lb) && Dicts(At(lo, key)) <= Dicts(lo)
    ensures Filled(old(merged.entries), result, ls, world)
    decreases o[key], 4
  {
    EntriesSpell(base, b, lb);
    EntrySpells(overlay, o, lo, key);
    BelowIsWithin(lb, key);
    l, more := MergeKey(merged, key, overlay.entries[key], b, o, lb, lo, result, ls, world);
  }

  /** The same turn, with the progress it makes. */
  method MergeInto(merged: Dict, key: string, base: Dict, overlay: Dict, ghost b: Doc, ghost o: Doc, ghost result: Doc,
                   ghost lb: Layout, ghost lo: Layout, ghost ls: map<string, Layout>,
                   ghost made: map<string, set<Dict>>, ghost below: set<Dict>, ghost todo: set<string>)
    returns (ghost ls': map<string, Layout>, ghost made': map<string, set<Dict>>, ghost more: set<Dict>)
    requires Spells(Nested(base), Table(b), lb) && Spells(Nested(overlay), Table(o), lo)
    requires key in o && key in todo
    requires key in result && result[key] == MergedAt(b, o, key)
    requires merged !in Dicts(lb) + Dicts(lo) + below
    requires Progress(merged.entries, base.entries, result, lb, lo, ls, made, below, o.Keys, todo)
    modifies merged
    ensures fresh(more)
    ensures Progress(merged.entries, base.entries, result, lb, lo, ls', made', below + more, o.Keys, todo - {key})
    decreases o[key], 5
  {
    ghost var entries := merged.entries;
    ghost var l;
    l, more := MergeAt(merged, key, base, overlay, b, o, result, lb, lo, ls, Dicts(lb) + Dicts(lo) + below);
    ProgressOne(entries, base.entries, result, lb, lo, ls, made, below, o.Keys, todo, key, merged.entries[key], l, more);
    ls', made' := ls[key := l], made[key := more];
  }

  twostate lemma SpellsStays(new node: Node, new v: Value, new l: Layout)
    requires old(allocated(node)) && old(allocated(v)) && old(allocated(l))
    requires old(Spells(node, v, l)) && unchanged(Dicts(l))
    ensures Spells(node, v, l)
  {
  }

  twostate lemma AllNew(new these: set<Dict>, new those: set<Dict>)
    requires fresh(these) && fresh(those)
    ensures fresh(these + those)
  {
  }

  /** The loop: every key of the overlay is merged into the copy. */
  method MergeKeys(merged: Dict, base: Dict, overlay: Dict, ghost b: Doc, ghost o: Doc, ghost result: Doc,
                   ghost lb: Layout, ghost lo: Layout)
    returns (ghost ls: map<string, Layout>, ghost made: map<string, set<Dict>>, ghost below: set<Dict>)
    requires Spells(Nested(base), Table(b), lb) && Spells(Nested(overlay), Table(o), lo)
    requires merged !in Dicts(lb) + Dicts(lo) && merged.entries == base.entries
    requires forall key :: key in o ==> key in result && result[key] == MergedAt(b, o, key)
    modifies merged
    ensures fresh(below)
    ensures Progress(merged.entries, base.entries, result, lb, lo, ls, made, below, o.Keys, {})
    decreases Table(o), 0
  {
    EntriesSpell(overlay, o, lo);
    ls, made, below := map[], map[], {};
    var keys := overlay.entries.Keys;
    while keys != {}
      invariant fresh(below)
      invariant Progress(merged.entries, base.entries, result, lb, lo, ls, made, below, o.Keys, keys)
      decreases keys
    {
      var key :| key in keys;
      ghost var more;
      ls, made, more := MergeInto(merged, key, base, overlay, b, o, result, lb, lo, ls, made, below, keys);
      AllNew(below, more);
      below := below + more;
      keys := keys - {key};
    }
  }

  /** The layout of the result: what was merged, and the base's own otherwise. */
  function Joined(merged: Dict, b: Doc, o: Doc, lb: Layout, lo: Layout, ls: map<string, Layout>, below: set<Dict>): Layout
    requires ls.Keys == o.Keys
  {
    Own(merged, map key | key in b.Keys + o.Keys :: if key in o then ls[key] else At(lb, key),
        Dicts(lb) + Dicts(lo) + (below + {merged}))
  }

  /** What the layout of a key of the result can be made of. */
  ghost function Sources(lb: Layout, lo: Layout, made: map<string, set<Dict>>, key: string): set<Dict>
  {
    Dicts(At(lb, key)) + Dicts(At(lo, key)) + if key in made then made[key] else {}
  }

  lemma SourcesAreApart(lb: Layout, lo: Layout, made: map<string, set<Dict>>, below: set<Dict>, i: string, j: string)
    requires Contains(lb) && Contains(lo) && IsTree(lb) && IsTree(lo) && Dicts(lb) !! Dicts(lo)
    requires below !! Dicts(lb) + Dicts(lo) && forall key :: key in made ==> made[key] <= below
    requires i != j && (i in made && j in made ==> made[i] !! made[j])
    ensures Sources(lb, lo, made, i) !! Sources(lb, lo, made, j)
  {
    BelowIsWithin(lb, i);
    BelowIsWithin(lb, j);
    BelowIsWithin(lo, i);
    BelowIsWithin(lo, j);
    assert Dicts(At(lb, i)) !! Dicts(At(lb, j));
    assert Dicts(At(lo, i)) !! Dicts(At(lo, j));
  }

  lemma JoinedIsWithin(merged: Dict, b: Doc, o: Doc, lb: Layout, lo: Layout,
                       ls: map<string, Layout>, made: map<string, set<Dict>>, below: set<Dict>, key: string)
    requires ls.Keys == o.Keys && Contains(lb) && Contains(lo) && Drawn(ls, made, below, lb, lo)
    requires key in b.Keys + o.Keys
    ensures Dicts(Joined(merged, b, o, lb, lo, ls, below).below[key]) <= Sources(lb, lo, made, key)
    ensures Sources(lb, lo, made, key) <= Dicts(lb) + Dicts(lo) + below
  {
    BelowIsWithin(lb, key);
    BelowIsWithin(lo, key);
  }

  lemma JoinedContains(merged: Dict, b: Doc, o: Doc, lb: Layout, lo: Layout,
                       ls: map<string, Layout>, made: map<string, set<Dict>>, below: set<Dict>)
    requires ls.Keys == o.Keys && Contains(lb) && Contains(lo) && Drawn(ls, made, below, lb, lo)
    ensures Contains(Joined(merged, b, o, lb, lo, ls, below))
  {
    var l := Joined(merged, b, o, lb, lo, ls, below);
    forall key | key in l.below ensures Dicts(l.below[key]) <= l.all {
      JoinedIsWithin(merged, b, o, lb, lo, ls, made, below, key);
    }
  }

  lemma JoinedSpells(merged: Dict, base: map<string, Node>, b: Doc, o: Doc, lb: Layout, lo: Layout,
                     ls: map<string, Layout>, below: set<Dict>)
    requires ls.Keys == o.Keys && Contains(Joined(merged, b, o, lb, lo, ls, below))
    requires Filled(merged.entries, Merge(b, o), ls, Dicts(lb) + Dicts(lo) + below)
    requires merged.entries.Keys == b.Keys + o.Keys && base.Keys == b.Keys
    requires forall key :: key in b ==> Spells(base[key], b[key], At(lb, key))
    requires forall key :: key in b && key !in o ==> merged.entries[key] == base[key]
    ensures Spells(Nested(merged), Table(Merge(b, o)), Joined(merged, b, o, lb, lo, ls, below))
  {
  }

  lemma JoinedIsTree(merged: Dict, b: Doc, o: Doc, lb: Layout, lo: Layout,
                     ls: map<string, Layout>, made: map<string, set<Dict>>, below: set<Dict>)
    requires ls.Keys == o.Keys && Contains(lb) && Contains(lo) && Drawn(ls, made, below, lb, lo)
    requires merged !in below && below + {merged} !! Dicts(lb) + Dicts(lo)
    requires IsTree(lb) && IsTree(lo) && Dicts(lb) !! Dicts(lo)
    ensures IsTree(Joined(merged, b, o, lb, lo, ls, below))
  {
    var l := Joined(merged, b, o, lb, lo, ls, below);
    forall i, j | i in l.below && j in l.below && i != j ensures Dicts(l.below[i]) !! Dicts(l.below[j]) {
      JoinedIsWithin(merged, b, o, lb, lo, ls, made, below, i);
      JoinedIsWithin(merged, b, o, lb, lo, ls, made, below, j);
      SourcesAreApart(lb, lo, made, below, i, j);
    }
    forall key | key in l.below ensures IsTree(l.below[key]) && merged !in Dicts(l.below[key]) {
      JoinedIsWithin(merged, b, o, lb, lo, ls, made, below, key);
      BelowIsWithin(lb, key);
      BelowIsWithin(lo, key);
      assert IsTree(At(lb, key)) && IsTree(At(lo, key));
    }
  }

  lemma JoinedIsDrawn(merged: Dict, b: Doc, o: Doc, lb: Layout, lo: Layout,
                      ls: map<string, Layout>, made: map<string, set<Dict>>, below: set<Dict>)
    requires ls.Keys == o.Keys && Contains(lb) && Contains(lo) && Drawn(ls, made, below, lb, lo)
    requires merged !in below && below + {merged} !! Dicts(lb) + Dicts(lo)
    ensures DrawnFrom(Joined(merged, b, o, lb, lo, ls, below), lb, lo, below + {merged})
  {
    if IsTree(lb) && IsTree(lo) && Dicts(lb) !! Dicts(lo) {
      JoinedIsTree(merged, b, o, lb, lo, ls, made, below);
    }
  }

  lemma JoinedIsTheMerge(merged: Dict, base: map<string, Node>, b: Doc, o: Doc, lb: Layout, lo: Layout,
                         ls: map<string, Layout>, made: map<string, set<Dict>>, below: set<Dict>)
    requires Contains(lb) && Contains(lo) && base.Keys == b.Keys
    requires forall key :: key in b ==> Spells(base[key], b[key], At(lb, key))
    requires Progress(merged.entries, base, Merge(b, o), lb, lo, ls, made, below, o.Keys, {})
    requires merged !in below && below + {merged} !! Dicts(lb) + Dicts(lo)
    ensures ls.Keys == o.Keys
    ensures Spells(Nested(merged), Table(Merge(b, o)), Joined(merged, b, o, lb, lo, ls, below))
    ensures DrawnFrom(Joined(merged, b, o, lb, lo, ls, below), lb, lo, below + {merged})
  {
    JoinedContains(merged, b, o, lb, lo, ls, made, below);
    JoinedSpells(merged, base, b, o, lb, lo, ls, below);
    JoinedIsDrawn(merged, b, o, lb, lo, ls, made, below);
  }

  /** Copies the base dictionary and fills the copy. Nothing that existed before
      is written to, so base and overlay still say what they said; entries the
      overlay does not touch are shared with the base, not copied. Two trees with
      nothing in common make a tree again. */
  method DeepMerge(base: Dict, overlay: Dict, ghost b: Doc, ghost o: Doc, ghost lb: Layout, ghost lo: Layout)
    returns (merged: Dict, ghost l: Layout, ghost made: set<Dict>)
    requires Spells(Nested(base), Table(b), lb) && Spells(Nested(overlay), Table(o), lo)
    ensures fresh(made) && merged in made
    ensures Spells(Nested(merged), Table(Merge(b, o)), l)
    ensures DrawnFrom(l, lb, lo, made)
    ensures Spells(Nested(base), Table(b), lb) && Spells(Nested(overlay), Table(o), lo)
    ensures forall key :: key in b && key !in o ==> merged.entries[key] == base.entries[key]
    decreases Table(o), 1
  {
    merged := new Dict(base.entries);
    ghost var ls, news, below := MergeKeys(merged, base, overlay, b, o, Merge(b, o), lb, lo);
    made := below + {merged};
    AllNew(below, {merged});
    SpellsStays(Nested(base), Table(b), lb);
    SpellsStays(Nested(overlay), Table(o), lo);
    assert made !! Dicts(lb) + Dicts(lo);
    EntriesSpell(base, b, lb);
    EntriesSpell(overlay, o, lo);
    JoinedIsTheMerge(merged, base.entries, b, o, lb, lo, ls, news, below);
    l := Joined(merged, b, o, lb, lo, ls, below);
  }

  // ---------------------------------------------------------------------
  // Looking up a path in a merged document
  // ---------------------------------------------------------------------

  function Get(doc: Doc, path: seq<string>): Option<Value>
    decreases |path|
  {
    if path == [] then Some(Table(doc))
    else if path[0] !in doc then None
    else if |path| == 1 then Some(doc[path[0]])
    else if doc[path[0]].Leaf? then None
    else Get(doc[path[0]].entries, path[1..])
  }

  /** The document has a scalar somewhere on the way to the path. */
  predicate Blocked(doc: Doc, path: seq<string>)
    decreases |path|
  {
    |path| > 1 && path[0] in doc && (doc[path[0]].Leaf? || Blocked(doc[path[0]].entries, path[1..]))
  }

  /** What a path holds after a merge, at every depth: the overlay's scalar; the
      merge of two tables; nothing below an overlay scalar; and what the base
      holds wherever the overlay is silent. */
  lemma {:induction false} MergeLookup(base: Doc, overlay: Doc, path: seq<string>)
    ensures Get(Merge(base, overlay), path) ==
            match Get(overlay, path)
            case Some(Leaf(text)) => Some(Leaf(text))
            case Some(Table(o)) =>
              (match Get(base, path)
               case Some(Table(b)) => Some(Table(Merge(b, o)))
               case _ => Some(Table(o)))
            case None => if Blocked(overlay, path) then None else Get(base, path)
    decreases |path|
  {
    if |path| > 1 && path[0] in overlay && overlay[path[0]].Table? {
      var o := overlay[path[0]].entries;
      if path[0] in base && base[path[0]].Table? {
        MergeLookup(base[path[0]].entries, o, path[1..]);
      }
    }
  }

  // ---------------------------------------------------------------------
  // Algebra
  // ---------------------------------------------------------------------

  lemma EmptyIsIdentity(doc: Doc)
    ensures Merge(doc, map[]) == doc
    ensures Merge(map[], doc) == doc
  {
  }

  /** Applying an overlay twice is applying it once. */
  lemma {:induction false} OverlayIsIdempotent(base: Doc, overlay: Doc)
    ensures Merge(Merge(base, overlay), overlay) == Merge(base, overlay)
    decreases Table(overlay)
  {
    var once := Merge(base, overlay);
    var twice := Merge(once, overlay);
    forall key | key in once ensures twice[key] == once[key] {
      if key in overlay && overlay[key].Table? {
        if key in base && base[key].Table? {
          OverlayIsIdempotent(base[key].entries, overlay[key].entries);
        } else {
          SelfMerge(overlay[key].entries);
        }
      }
    }
  }

  lemma {:induction false} SelfMerge(doc: Doc)
    ensures Merge(doc, doc) == doc
    decreases Table(doc)
  {
    forall key | key in doc ensures Merge(doc, doc)[key] == doc[key] {
      if doc[key].Table? {
        SelfMerge(doc[key].entries);
      }
    }
  }

  /** The lower document has no key, at any depth, that the upper one lacks. */
  predicate Covers(upper: Doc, lower: Doc)
    decreases Table(upper)
  {
    forall key :: key in lower ==>
      key in upper && (lower[key].Table? && upper[key].Table? ==> Covers(upper[key].entries, lower[key].entries))
  }

  /** Merging adds nothing to the overlay exactly when it covers the base. */
  lemma {:induction false} CoversExactly(upper: Doc, lower: Doc)
    ensures Merge(lower, upper) == upper <==> Covers(upper, lower)
    decreases Table(upper)
  {
    var merged := Merge(lower, upper);
    forall key | key in lower && key in upper && lower[key].Table? && upper[key].Table?
      ensures merged[key] == upper[key] <==> Covers(upper[key].entries, lower[key].entries)
    {
      CoversExactly(upper[key].entries, lower[key].entries);
    }
    if merged == upper {
      forall key | key in lower ensures key in upper {
        assert key in merged;
      }
    }
    if Covers(upper, lower) {
      assert merged.Keys == upper.Keys;
      assert forall key :: key in upper ==> merged[key] == upper[key];
    }
  }

  /** Somewhere the first and third documents have tables, the second has a
      scalar between them, and the third does not cover the first. */
  predicate Clash(a: Doc, b: Doc, c: Doc)
    decreases Table(c)
  {
    exists key :: key in a && key in b && key in c && ClashAt(a, b, c, key)
  }

  predicate ClashAt(a: Doc, b: Doc, c: Doc, key: string)
    requires key in a && key in b && key in c
    decreases Table(c), 0
  {
    && a[key].Table? && c[key].Table?
    && if b[key].Leaf? then !Covers(c[key].entries, a[key].entries)
       else Clash(a[key].entries, b[key].entries, c[key].entries)
  }

  /** The order in which three documents are merged matters exactly when they
      clash. */
  lemma {:induction false} MergeIsAssociativeExactly(a: Doc, b: Doc, c: Doc)
    ensures Merge(Merge(a, b), c) == Merge(a, Merge(b, c)) <==> !Clash(a, b, c)
    decreases Table(c)
  {
    var left, right := Merge(Merge(a, b), c), Merge(a, Merge(b, c));
    SameKeys(a, b, c);
    forall key | key in left
      ensures left[key] == right[key] <==> !(key in a && key in b && key in c && ClashAt(a, b, c, key))
    {
      AssociativeAt(a, b, c, key);
    }
    EqualUnlessClash(left, right, a, b, c);
  }

  lemma SameKeys(a: Doc, b: Doc, c: Doc)
    ensures Merge(Merge(a, b), c).Keys == Merge(a, Merge(b, c)).Keys == a.Keys + b.Keys + c.Keys
  {
  }

  lemma EqualUnlessClash(left: Doc, right: Doc, a: Doc, b: Doc, c: Doc)
    requires left.Keys == right.Keys == a.Keys + b.Keys + c.Keys
    requires forall key :: key in left ==>
      (left[key] == right[key] <==> !(key in a && key in b && key in c && ClashAt(a, b, c, key)))
    ensures left == right <==> !Clash(a, b, c)
  {
  }

  lemma {:induction false} AssociativeAt(a: Doc, b: Doc, c: Doc, key: string)
    requires key in a.Keys + b.Keys + c.Keys
    ensures Merge(Merge(a, b), c)[key] == Merge(a, Merge(b, c))[key] <==>
            !(key in a && key in b && key in c && ClashAt(a, b, c, key))
    decreases Table(c), 0
  {
    if key in a && key in b && key in c && a[key].Table? && c[key].Table? {
      if b[key].Leaf? {
        CoversExactly(c[key].entries, a[key].entries);
      } else {
        MergeIsAssociativeExactly(a[key].entries, b[key].entries, c[key].entries);
      }
    }
  }

  // ---------------------------------------------------------------------
  // Base file, overlay and environment
  // ---------------------------------------------------------------------

  /** Base and overlay, before the environment is looked at. */
  function Merged(base: Doc, overlay: Option<Doc>): Doc
  {
    match overlay case None => base case Some(o) => Merge(base, o)
  }

  /** The environment can replace the login user of an existing ssh table and
      nothing else. */
  function WithUser(document: Doc, user: string): Doc
  {
    if user != "" && "ssh" in document && document["ssh"].Table?
    then document["ssh" := Table(document["ssh"].entries["user" := Leaf(user)])]
    else document
  }

  /** The document the configuration is read from. */
  function LoadDocument(base: Doc, overlay: Option<Doc>, environmentUser: string): Doc
  {
    WithUser(Merged(base, overlay), environmentUser)
  }

  /** The environment as an overlay of its own. */
  function UserOverlay(user: string): Doc
  {
    map["ssh" := Table(map["user" := Leaf(user)])]
  }

  /** The environment acts as one more overlay, laid over the merged document,
      exactly when it names a user and there is an ssh table to put it in. */
  lemma EnvironmentIsAnOverlayExactly(base: Doc, overlay: Option<Doc>, user: string)
    ensures var (merged, loaded) := (Merged(base, overlay), LoadDocument(base, overlay, user));
      && (user != "" && "ssh" in merged && merged["ssh"].Table? ==> loaded == Merge(merged, UserOverlay(user)))
      && (user == "" || "ssh" !in merged || merged["ssh"].Leaf? ==> loaded == merged)
      && (user != "" && !("ssh" in merged && merged["ssh"].Table?) ==> loaded != Merge(merged, UserOverlay(user)))
  {
    var merged, loaded := Merged(base, overlay), LoadDocument(base, overlay, user);
    var over := UserOverlay(user);
    if user != "" && "ssh" in merged && merged["ssh"].Table? {
      var entries := merged["ssh"].entries;
      assert Merge(entries, over["ssh"].entries) == entries["user" := Leaf(user)];
      assert merged.Keys + over.Keys == loaded.Keys;
    } else {
      assert "ssh" in Merge(merged, over) && Merge(merged, over)["ssh"].Table?;
    }
  }

  predicate UserApplies(merged: Doc, user: string)
  {
    user != "" && "ssh" in merged && merged["ssh"].Table?
  }

  /** So the environment decides the user, and with it what is below; the ssh
      table is the merged one but for the user; and every other path, at any
      depth, holds what the merge holds. */
  lemma Precedence(base: Doc, overlay: Doc, user: string, path: seq<string>)
    requires path != []
    ensures var (merged, loaded) := (Merge(base, overlay), LoadDocument(base, Some(overlay), user));
      Get(loaded, path) ==
      if !UserApplies(merged, user) then Get(merged, path)
      else if path == ["ssh"] then Some(Table(merged["ssh"].entries["user" := Leaf(user)]))
      else if path == ["ssh", "user"] then Some(Leaf(user))
      else if ["ssh", "user"] <= path then None
      else Get(merged, path)
  {
    var merged := Merge(base, overlay);
    if UserApplies(merged, user) && path[0] == "ssh" && |path| > 1 {
      BelowSsh(merged["ssh"].entries, user, path[1..]);
      FirstApart(path);
      assert ["ssh", "user"] <= path <==> path[1] == "user";
    }
  }

  lemma BelowSsh(entries: Doc, user: string, path: seq<string>)
    requires path != []
    ensures Get(entries["user" := Leaf(user)], path) ==
            if path[0] != "user" then Get(entries, path) else if |path| == 1 then Some(Leaf(user)) else None
  {
  }

  /** The dictionary of the ssh table occurs nowhere else in the document. */
  predicate UsesItsTableOnce(l: Layout)
  {
    var ssh := At(l, "ssh");
    l.Own? && ssh.Own? ==>
      && ssh.dict != l.dict
      && (forall key :: key in l.below && key != "ssh" ==> ssh.dict !in Dicts(l.below[key]))
      && (forall key :: key in ssh.below ==> ssh.dict !in Dicts(ssh.below[key]))
  }

  /** As in every tree. */
  lemma TreesUseTheirTablesOnce(node: Node, v: Value, l: Layout)
    requires Spells(node, v, l) && IsTree(l)
    ensures UsesItsTableOnce(l)
  {
    if l.Own? && At(l, "ssh").Own? {
      assert Spells(l.dict.entries["ssh"], v.entries["ssh"], l.below["ssh"]);
      assert IsTree(l.below["ssh"]) && l.below["ssh"].dict in Dicts(l.below["ssh"]);
    }
  }

  /** The layout with a scalar for the user, where there is a table to hold it. */
  function LaidWithUser(l: Layout, user: string): Layout
  {
    var ssh := At(l, "ssh");
    if user == "" || l.Plain? || ssh.Plain? then l
    else l.(below := l.below["ssh" := ssh.(below := ssh.below["user" := Plain])])
  }

  lemma LaidWithUserIsTree(l: Layout, user: string)
    requires IsTree(l)
    ensures IsTree(LaidWithUser(l, user)) && Dicts(LaidWithUser(l, user)) == Dicts(l)
  {
    var ssh := At(l, "ssh");
    if user != "" && l.Own? && ssh.Own? {
      var ssh' := ssh.(below := ssh.below["user" := Plain]);
      assert IsTree(ssh);
      forall key | key in ssh'.below ensures IsTree(ssh'.below[key]) && ssh.dict !in Dicts(ssh'.below[key]) {
        assert key != "user" ==> key in ssh.below;
      }
      assert IsTree(ssh') && Dicts(ssh') == Dicts(ssh);
    }
  }

  /** The assignment as it runs, into the table that the document holds, which
      it must not hold elsewhere as well. Nothing but that table is written to;
      whoever else holds it, as the base does where the overlay has no ssh table,
      sees the new user too. */
  method AssignUser(document: Dict, user: string, ghost doc: Doc, ghost l: Layout)
    requires Spells(Nested(document), Table(doc), l) && UsesItsTableOnce(l)
    modifies if "ssh" in document.entries && document.entries["ssh"].Nested? then {document.entries["ssh"].dict} else {}
    ensures Spells(Nested(document), Table(WithUser(doc, user)), LaidWithUser(l, user))
    ensures document.entries == old(document.entries)
    ensures user != "" && "ssh" in document.entries && document.entries["ssh"].Nested? ==>
              document.entries["ssh"].dict.entries == old(document.entries["ssh"].dict.entries)["user" := Scalar(user)]
  {
    if "ssh" in doc {
      EntrySpells(document, doc, l, "ssh");
    }
    if user != "" && "ssh" in document.entries && document.entries["ssh"].Nested? {
      var table := document.entries["ssh"].dict;
      table.entries := table.entries["user" := Scalar(user)];
      TableSpells(table, doc["ssh"].entries, At(l, "ssh"), user);
      DocumentSpells(document, doc, l, user);
    }
  }

  twostate lemma TableSpells(new table: Dict, new entries: Doc, new l: Layout, new user: string)
    requires old(allocated(table)) && old(allocated(entries)) && old(allocated(l))
    requires old(Spells(Nested(table), Table(entries), l))
    requires forall key :: key in l.below ==> table !in Dicts(l.below[key])
    requires forall d :: d in Dicts(l) && d != table ==> unchanged(d)
    requires table.entries == old(table.entries)["user" := Scalar(user)]
    ensures l.Own? && Spells(Nested(table), Table(entries["user" := Leaf(user)]), l.(below := l.below["user" := Plain]))
  {
    var (entries', l') := (entries["user" := Leaf(user)], l.(below := l.below["user" := Plain]));
    forall key | key in entries' ensures Spells(table.entries[key], entries'[key], l'.below[key]) {
      if key != "user" {
        assert old(Spells(table.entries[key], entries[key], l.below[key]));
        assert forall d :: d in Dicts(l.below[key]) ==> d in Dicts(l) && d != table;
        SpellsStays(table.entries[key], entries[key], l.below[key]);
      }
    }
    assert Contains(l') && table.entries.Keys == entries'.Keys == l'.below.Keys;
  }

  twostate lemma DocumentSpells(new document: Dict, new doc: Doc, new l: Layout, new user: string)
    requires old(allocated(document)) && old(allocated(doc)) && old(allocated(l))
    requires old(Spells(Nested(document), Table(doc), l)) && UsesItsTableOnce(l)
    requires user != "" && "ssh" in doc && doc["ssh"].Table? && At(l, "ssh").Own?
    requires forall d :: d in Dicts(l) && d != At(l, "ssh").dict ==> unchanged(d)
    requires Spells(Nested(At(l, "ssh").dict), WithUser(doc, user)["ssh"], At(LaidWithUser(l, user), "ssh"))
    ensures Spells(Nested(document), Table(WithUser(doc, user)), LaidWithUser(l, user))
  {
    assert Contains(l) && document == l.dict && document in Dicts(l);
    assert document != At(l, "ssh").dict;
    assert document.entries == old(document.entries);
    forall key | key in doc && key != "ssh" ensures Spells(document.entries[key], doc[key], l.below[key]) {
      assert old(Spells(document.entries[key], doc[key], l.below[key]));
      assert forall d :: d in Dicts(l.below[key]) ==> d in Dicts(l) && d != At(l, "ssh").dict;
      SpellsStays(document.entries[key], doc[key], l.below[key]);
    }
    assert old(Spells(document.entries["ssh"], doc["ssh"], l.below["ssh"]));
    LaidWithUserSpells(document, doc, l, user);
  }

  lemma LaidWithUserSpells(document: Dict, doc: Doc, l: Layout, user: string)
    requires l.Own? && Contains(l) && document == l.dict && document.entries.Keys == doc.Keys == l.below.Keys
    requires user != "" && "ssh" in doc && doc["ssh"].Table? && At(l, "ssh").Own?
    requires forall key :: key in doc && key != "ssh" ==> Spells(document.entries[key], doc[key], l.below[key])
    requires document.entries["ssh"] == Nested(At(l, "ssh").dict)
    requires Spells(Nested(At(l, "ssh").dict), WithUser(doc, user)["ssh"], At(LaidWithUser(l, user), "ssh"))
    ensures Spells(Nested(document), Table(WithUser(doc, user)), LaidWithUser(l, user))
  {
    var (doc', l') := (WithUser(doc, user), LaidWithUser(l, user));
    forall key | key in l'.below ensures Dicts(l'.below[key]) <= l'.all {
      assert key in l.below && Dicts(l'.below[key]) == Dicts(l.below[key]);
    }
    assert document.entries.Keys == doc'.Keys == l'.below.Keys;
  }

  /** The assignment in a document that is a tree, which it stays. */
  method AssignUserInTree(document: Dict, user: string, ghost doc: Doc, ghost l: Layout, ghost others: set<Dict>)
    requires Spells(Nested(document), Table(doc), l) && IsTree(l)
    modifies Dicts(l)
    ensures Spells(Nested(document), Table(WithUser(doc, user)), LaidWithUser(l, user)) && IsTree(LaidWithUser(l, user))
    ensures document.entries == old(document.entries)
    ensures forall d :: d in others ==>
              d.entries == old(d.entries) || ("ssh" in document.entries && document.entries["ssh"] == Nested(d))
  {
    TreesUseTheirTablesOnce(Nested(document), Table(doc), l);
    LaidWithUserIsTree(l, user);
    AssignUser(document, user, doc, l);
  }

  /** The overlay, if there is one, merged over the base. */
  method MergeOverlay(base: Dict, overlay: Option<Dict>,
                      ghost b: Doc, ghost o: Option<Doc>, ghost lb: Layout, ghost lo: Layout)
    returns (document: Dict, ghost l: Layout)
    requires Spells(Nested(base), Table(b), lb) && IsTree(lb)
    requires overlay.Some? <==> o.Some?
    requires overlay.Some? ==> Spells(Nested(overlay.value), Table(o.value), lo) && IsTree(lo) && Dicts(lb) !! Dicts(lo)
    ensures Spells(Nested(document), Table(Merged(b, o)), l) && IsTree(l)
    ensures if overlay.Some? then fresh(document) else document == base
    ensures fresh(Dicts(l) - Dicts(lb) - Dicts(lo))
    ensures "ssh" in b && (o.None? || "ssh" !in o.value) ==>
              "ssh" in document.entries && document.entries["ssh"] == base.entries["ssh"]
  {
    document, l := base, lb;
    if overlay.Some? {
      ghost var made;
      document, l, made := DeepMerge(base, overlay.value, b, o.value, lb, lo);
    }
  }

  /** Loading: the overlay, if there is one, is merged over the base, then the
      user is assigned. Both files were parsed into trees of their own. The
      result spells the intended document and is a tree; of what was parsed only
      its ssh table may have changed, which is the base's own where the overlay
      says nothing about it. */
  method LoadConfig(base: Dict, overlay: Option<Dict>, user: string,
                    ghost b: Doc, ghost o: Option<Doc>, ghost lb: Layout, ghost lo: Layout)
    returns (document: Dict, ghost l: Layout)
    requires Spells(Nested(base), Table(b), lb) && IsTree(lb)
    requires overlay.Some? <==> o.Some?
    requires overlay.Some? ==> Spells(Nested(overlay.value), Table(o.value), lo) && IsTree(lo) && Dicts(lb) !! Dicts(lo)
    modifies Dicts(lb), Dicts(lo)
    ensures Spells(Nested(document), Table(LoadDocument(b, o, user)), l) && IsTree(l)
    ensures if overlay.Some? then fresh(document) else document == base
    ensures forall d :: d in Dicts(lb) + Dicts(lo) ==>
              d.entries == old(d.entries) || ("ssh" in document.entries && document.entries["ssh"] == Nested(d))
    ensures "ssh" in b && (o.None? || "ssh" !in o.value) ==>
              "ssh" in document.entries && document.entries["ssh"] == old(base.entries["ssh"])
  {
    document, l := MergeOverlay(base, overlay, b, o, lb, lo);
    AssignUserInTree(document, user, Merged(b, o), l, Dicts(lb) + Dicts(lo));
    l := LaidWithUser(l, user);
  }
}
