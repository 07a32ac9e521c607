/** The deep merges on mutable nested dictionaries, proved against the tree functions of
    module Trees: in place, and building a new dictionary. */
module DictMerges {
  import opened Trees

  datatype Value = Atom(s: Scalar) | Sub(d: Dict)

  /** A Python dictionary. The ghost fields hold the tree it stands for and a set containing
      every dictionary reachable from it. */
  class Dict {
    var items: map<string, Value>
    ghost var tree: Tree
    ghost var Repr: set<Dict>

    /** The tree agrees with the entries one level deep, and sub-dictionaries lie strictly below. */
    ghost predicate Rooted()
      reads this, Repr
    {
      && this in Repr
      && tree.Node? && tree.kids.Keys == items.Keys
      && (forall k :: k in items && items[k].Atom? ==> tree.kids[k] == Leaf(items[k].s))
      && (forall k :: k in items && items[k].Sub? ==>
            && items[k].d in Repr && items[k].d.Repr <= Repr && this !in items[k].d.Repr
            && tree.kids[k] == items[k].d.tree)
    }

    /** A dictionary without cycles; several entries may lead to one sub-dictionary. */
    ghost predicate Sound()
      reads this, Repr
      decreases Repr
    {
      Rooted() && forall k :: k in items && items[k].Sub? ==> items[k].d.Sound()
    }

    /** Besides, the sub-dictionaries are apart from each other. */
    ghost predicate Local()
      reads this, Repr
    {
      && Rooted()
      && (forall j, k :: j in items && k in items && j != k && items[j].Sub? && items[k].Sub? ==>
            items[j].d.Repr !! items[k].d.Repr)
    }

    /** A dictionary in which no sub-dictionary is shared, so that it can be changed in place. */
    ghost predicate Valid()
      reads this, Repr
      decreases Repr
    {
      Local() && forall k :: k in items && items[k].Sub? ==> items[k].d.Valid()
    }

    constructor ()
      ensures items == map[] && Repr == {this} && tree == Node(map[])
      ensures Valid()
    {
      items := map[];
      tree := Node(map[]);
      Repr := {this};
    }

    /** `self[k] = v`, for a value that shares nothing with this dictionary. */
    method Put(k: string, v: Value)
      requires Valid() && ValidValue(v) && ReprOf(v) !! Repr
      modifies this
      ensures Valid() && items == old(items)[k := v] && Repr == old(Repr) + ReprOf(v)
      ensures tree == Node(old(tree).kids[k := TreeOf(v)])
    {
      items := items[k := v];
      tree := Node(tree.kids[k := TreeOf(v)]);
      Repr := Repr + ReprOf(v);
    }

    /** `dict(source)`: a new dictionary with the same entries, sharing the sub-dictionaries. */
    constructor Copy(source: Dict)
      requires source.Sound()
      ensures Sound() && items == source.items && tree == source.tree
      ensures Repr == source.Repr - {source} + {this}
    {
      items := source.items;
      tree := source.tree;
      Repr := source.Repr - {source} + {this};
    }

    /** `self[k] = v`, for a value that does not contain this dictionary. */
    method Store(k: string, v: Value)
      requires Sound() && SoundValue(v) && this !in ReprOf(v)
      modifies this
      ensures Sound() && items == old(items)[k := v] && Repr == old(Repr) + ReprOf(v)
      ensures tree == Node(old(tree).kids[k := TreeOf(v)])
    {
      items := items[k := v];
      tree := Node(tree.kids[k := TreeOf(v)]);
      Repr := Repr + ReprOf(v);
    }

    /** Ghost bookkeeping after only the sub-dictionary under `k` changed and grew by `extra`. */
    ghost method Regrow(k: string, r: map<string, set<Dict>>, extra: set<Dict>)
      requires this in Repr && Apart(r, Repr, this) && extra !! Repr
      requires tree.Node? && r.Keys == items.Keys == tree.kids.Keys && k in items && items[k].Sub?
      requires ReprOf(items[k]) <= r[k] + extra
      requires forall j :: j in items && j != k ==> ReprOf(items[j]) == r[j] && tree.kids[j] == TreeOf(items[j])
      requires forall j :: j in items ==> ValidValue(items[j])
      modifies this`Repr, this`tree
      ensures Repr == old(Repr) + old(ReprOf(items[k]))
      ensures tree == Node(old(tree).kids[k := old(TreeOf(items[k]))])
      ensures Valid()
      ensures forall j :: j in items && j != k ==> EntryRepr(this, j) == r[j]
    {
      ghost var whole := Repr;
      forall j | j in items && items[j].Sub?
        ensures this !in items[j].d.Repr
      {
        assert ReprOf(items[j]) <= r[j] + extra;
      }
      Repr := Repr + items[k].d.Repr;
      tree := Node(tree.kids[k := items[k].d.tree]);
      forall j | j in items && items[j].Sub?
        ensures items[j].d.Valid() && items[j].d in items[j].d.Repr
      {
        assert old(ValidValue(items[j]));
      }
      RegionGrew(this, r, whole, k, extra);
    }
  }

  /** One region grew by something foreign, the others did not change: still all apart. */
  lemma RegionGrew(d: Dict, r: map<string, set<Dict>>, whole: set<Dict>, k: string, extra: set<Dict>)
    requires Apart(r, whole, d) && d in whole && extra !! whole
    requires r.Keys == d.items.Keys && k in r && d.Repr == whole + ReprOf(d.items[k])
    requires ReprOf(d.items[k]) <= r[k] + extra
    requires forall j :: j in d.items && j != k ==> ReprOf(d.items[j]) == r[j]
    requires forall j :: j in d.items && d.items[j].Sub? ==> d.items[j].d in d.items[j].d.Repr
    requires d.tree.Node? && d.tree.kids.Keys == d.items.Keys
    requires forall j :: j in d.items ==> d.tree.kids[j] == TreeOf(d.items[j])
    ensures d.Local()
  {
    forall j | j in d.items && d.items[j].Sub?
      ensures d.items[j].d.Repr <= d.Repr && d !in d.items[j].d.Repr
    {
      assert ReprOf(d.items[j]) <= r[j] + extra;
    }
    forall i, j | i in d.items && j in d.items && i != j
      ensures ReprOf(d.items[i]) !! ReprOf(d.items[j])
    {
      assert r[i] !! r[j];
    }
  }

  ghost predicate ValidValue(v: Value)
    reads if v.Sub? then {v.d} + v.d.Repr else {}
  {
    v.Sub? ==> v.d in v.d.Repr && v.d.Valid()
  }

  ghost predicate SoundValue(v: Value)
    reads if v.Sub? then {v.d} + v.d.Repr else {}
  {
    v.Sub? ==> v.d in v.d.Repr && v.d.Sound()
  }

  ghost function TreeOf(v: Value): Tree
    reads if v.Sub? then {v.d} else {}
  {
    match v case Atom(s) => Leaf(s) case Sub(d) => d.tree
  }

  ghost function ReprOf(v: Value): set<Dict>
    reads if v.Sub? then {v.d} else {}
  {
    if v.Sub? then v.d.Repr else {}
  }

  /** The region of the entry under `k`, if there is one. */
  ghost function EntryRepr(d: Dict, k: string): set<Dict>
    reads d, if k in d.items && d.items[k].Sub? then {d.items[k].d} else {}
  {
    if k in d.items then ReprOf(d.items[k]) else {}
  }

  /** The regions of the entries, kept as plain sets. */
  ghost function Regions(d: Dict): map<string, set<Dict>>
    reads d, d.Repr
    requires d.Local()
  {
    map k | k in d.items :: ReprOf(d.items[k])
  }

  /** Regions that are apart, inside `whole` and without `d`. */
  ghost predicate Apart(r: map<string, set<Dict>>, whole: set<Dict>, d: Dict) {
    && (forall k :: k in r ==> r[k] <= whole && d !in r[k])
    && (forall j, k :: j in r && k in r && j != k ==> r[j] !! r[k])
  }

  lemma RegionsApart(d: Dict)
    requires d.Local()
    ensures Apart(Regions(d), d.Repr, d)
  {
    forall j, k | j in d.items && k in d.items && j != k
      ensures ReprOf(d.items[j]) !! ReprOf(d.items[k])
    {
    }
  }

  lemma EntryValid(d: Dict, k: string)
    requires d.Valid()
    ensures EntryRepr(d, k) <= d.Repr - {d}
    ensures k in d.items ==> ValidValue(d.items[k]) && d.tree.kids[k] == TreeOf(d.items[k])
  {
    if k in d.items && d.items[k].Sub? {
      assert d.items[k].d.Valid();
    }
  }

  lemma EntrySound(d: Dict, k: string)
    requires d.Sound()
    ensures EntryRepr(d, k) <= d.Repr - {d}
    ensures k in d.items ==> SoundValue(d.items[k]) && d.tree.kids[k] == TreeOf(d.items[k])
  {
    if k in d.items && d.items[k].Sub? {
      assert d.items[k].d.Sound();
    }
  }

  /** Data that shares nothing, as read from a file, is a special case. */
  lemma {:induction false} ValidIsSound(d: Dict)
    requires d.Valid()
    ensures d.Sound()
    decreases d.Repr
  {
    forall k | k in d.items && d.items[k].Sub?
      ensures d.items[k].d.Sound()
    {
      ValidIsSound(d.items[k].d);
    }
  }

  // ---------------------------------------------------------------- in place

  /** `BenchmarkRunner._deep_merge`: merges `override` into `base` in place; sub-dictionaries
      of `override` that meet no dictionary are shared, not copied. Python's insertion order
      is one of the orders the loop may take. */
  method MergeInPlace(base: Dict, override: Dict)
    requires base.Valid() && override.Valid() && base.Repr !! override.Repr
    modifies base.Repr
    ensures base.Valid()
    ensures old(base.Repr) <= base.Repr <= old(base.Repr) + override.Repr
    ensures base.tree == Merge(old(base.tree), override.tree)
    decreases override.Repr, 1
  {
    ghost var b, r, s, whole := base.tree, Regions(base), Regions(override), base.Repr;
    RegionsApart(base);
    RegionsApart(override);
    var todo := override.items.Keys;
    MergeStarts(b, override.tree, todo);
    while todo != {}
      invariant Merging(base, override, b, r, s, whole, todo)
    {
      var k :| k in todo;
      MergeNext(base, override, k, b, r, s, whole, todo);
      todo := todo - {k};
    }
    assert override.tree.kids.Keys - {} == override.tree.kids.Keys;
  }

  lemma MergeStarts(b: Tree, o: Tree, todo: set<string>)
    requires b.Node? && o.Node? && todo == o.kids.Keys
    ensures MergeKids(b.kids, o, o.kids.Keys - todo) == b.kids
  {
    assert o.kids.Keys - todo == {};
    assert MergeKids(b.kids, o, {}) == b.kids;
  }

  /** The merge has treated all keys but those in `todo`; b, r, s and whole describe the start. */
  ghost predicate Merging(base: Dict, override: Dict, b: Tree, r: map<string, set<Dict>>,
                          s: map<string, set<Dict>>, whole: set<Dict>, todo: set<string>)
    reads base, base.Repr, override, override.Repr
  {
    && base.Valid() && whole <= base.Repr <= whole + override.Repr
    && override.Valid() && Regions(override) == s
    && b.Node? && todo <= override.tree.kids.Keys
    && base.tree == Node(MergeKids(b.kids, override.tree, override.tree.kids.Keys - todo))
    && (forall k :: k in todo && k in base.items ==> k in r && EntryRepr(base, k) == r[k])
    && (forall k :: k in todo ==> s[k] !! base.Repr)
  }

  /** One iteration of the merge loop. */
  method MergeNext(base: Dict, override: Dict, k: string, ghost b: Tree, ghost r: map<string, set<Dict>>,
                   ghost s: map<string, set<Dict>>, ghost whole: set<Dict>, ghost todo: set<string>)
    requires Merging(base, override, b, r, s, whole, todo)
    requires Apart(r, whole, base) && Apart(s, override.Repr, override) && whole !! override.Repr && base in whole
    requires k in todo
    modifies base, if k in r then r[k] else {}
    ensures Merging(base, override, b, r, s, whole, todo - {k})
    decreases override.Repr, 0
  {
    MergeKidsStep(b.kids, override.tree, todo, k);
    EntryValid(override, k);
    EntryValid(base, k);
    ghost var before, was, touched := base.Repr, Regions(base), {base} + EntryRepr(base, k);
    assert touched !! override.Repr;
    MergeKey(base, k, override.items[k]);
    assert unchanged(override.Repr);
    StillForeign(s, override, todo, k, before, base.Repr);
    forall j | j in todo - {k} && j in base.items
      ensures j in r && EntryRepr(base, j) == r[j]
    {
      assert was[j] == r[j];
    }
  }

  lemma StillForeign(s: map<string, set<Dict>>, override: Dict, todo: set<string>, k: string,
                     before: set<Dict>, after: set<Dict>)
    requires Apart(s, override.Repr, override) && k in todo && todo <= s.Keys
    requires forall j :: j in todo ==> s[j] !! before
    requires after <= before + s[k]
    ensures forall j :: j in todo - {k} ==> s[j] !! after
  {
    forall j | j in todo - {k}
      ensures s[j] !! after
    {
      assert s[j] !! before && s[j] !! s[k];
    }
  }

  lemma MergeKidsStep(b: map<string, Tree>, o: Tree, todo: set<string>, k: string)
    requires o.Node? && k in todo && todo <= o.kids.Keys
    ensures var m := MergeKids(b, o, o.kids.Keys - todo);
            MergeKids(b, o, o.kids.Keys - (todo - {k})) == m[k := if k in m then Merge(m[k], o.kids[k]) else o.kids[k]]
  {
    assert o.kids.Keys - (todo - {k}) == (o.kids.Keys - todo) + {k};
  }

  /** The loop body of the merge: recurse when both sides are dictionaries, else assign. */
  method MergeKey(base: Dict, k: string, value: Value)
    requires base.Valid() && ValidValue(value) && ReprOf(value) !! base.Repr
    modifies base, EntryRepr(base, k)
    ensures base.Valid()
    ensures old(base.Repr) <= base.Repr <= old(base.Repr) + ReprOf(value)
    ensures var t := old(base.tree).kids;
            base.tree == Node(t[k := if k in t then Merge(t[k], TreeOf(value)) else TreeOf(value)])
    ensures forall j :: j in base.items && j != k ==>
              j in old(base.items) && EntryRepr(base, j) == old(EntryRepr(base, j))
    decreases ReprOf(value), 3
  {
    EntryValid(base, k);
    if k in base.items && base.items[k].Sub? && value.Sub? {
      MergeChild(base, k, value.d);
    } else {
      base.Put(k, value);
    }
  }

  /** The recursive call of the merge on the sub-dictionary under one key. */
  method MergeChild(base: Dict, k: string, override: Dict)
    requires base.Valid() && override.Valid() && base.Repr !! override.Repr
    requires k in base.items && base.items[k].Sub?
    modifies base, base.items[k].d.Repr
    ensures base.Valid() && base.items == old(base.items)
    ensures old(base.Repr) <= base.Repr <= old(base.Repr) + override.Repr
    ensures base.tree == Node(old(base.tree).kids[k := Merge(old(base.tree).kids[k], override.tree)])
    ensures forall j :: j in base.items && j != k ==> ReprOf(base.items[j]) == old(ReprOf(base.items[j]))
    decreases override.Repr, 2
  {
    ghost var r := Regions(base);
    RegionsApart(base);
    EntryValid(base, k);
    MergeInPlace(base.items[k].d, override);
    forall j | j in base.items && j != k
      ensures ReprOf(base.items[j]) == r[j] && ValidValue(base.items[j]) && base.tree.kids[j] == TreeOf(base.items[j])
    {
      assert old(base.items[j].Sub? ==> base.items[j].d.Valid());
    }
    base.Regrow(k, r, override.Repr);
  }

  // ---------------------------------------------------------------- into a new dictionary

  /** `JSONLoader._deep_merge`: returns a new dictionary and leaves both arguments as they
      are. They may share sub-dictionaries, and the result shares what was not merged. */
  method MergeNew(base: Dict, overlay: Dict) returns (result: Dict, ghost news: set<Dict>)
    requires base.Sound() && overlay.Sound()
    ensures result.Sound() && result in news && fresh(news)
    ensures result.Repr <= news + base.Repr + overlay.Repr
    ensures result.tree == Merge(base.tree, overlay.tree)
    decreases overlay.Repr, 2
  {
    ghost var b := base.tree;
    result := new Dict.Copy(base);
    MergeStarts(b, overlay.tree, overlay.items.Keys);
    BuildAll(result, overlay, b);
    news := result.Repr - base.Repr - overlay.Repr;
    assert overlay.tree.kids.Keys - {} == overlay.tree.kids.Keys;
  }

  /** The loop over the overlay's items. */
  method BuildAll(result: Dict, overlay: Dict, ghost b: Tree)
    requires overlay.Sound() && Building(result, overlay, b, overlay.tree.kids.Keys)
    modifies result
    ensures old(result.Repr) <= result.Repr && fresh(result.Repr - old(result.Repr) - overlay.Repr)
    ensures Building(result, overlay, b, {})
    decreases overlay.Repr, 1
  {
    var todo := overlay.items.Keys;
    while todo != {}
      invariant old(result.Repr) <= result.Repr && fresh(result.Repr - old(result.Repr) - overlay.Repr)
      invariant Building(result, overlay, b, todo)
    {
      var k :| k in todo;
      BuildNext(result, overlay, k, b, todo);
      todo := todo - {k};
    }
  }

  /** `result` holds the tree b merged with the overlay keys that are no longer in `todo`. */
  ghost predicate Building(result: Dict, overlay: Dict, b: Tree, todo: set<string>)
    reads result, result.Repr, overlay, overlay.Repr
  {
    && result.Sound() && overlay.Sound() && b.Node? && result !in overlay.Repr
    && todo <= overlay.tree.kids.Keys
    && result.tree == Node(MergeKids(b.kids, overlay.tree, overlay.tree.kids.Keys - todo))
  }

  /** One iteration of the loop that fills the new dictionary. */
  method BuildNext(result: Dict, overlay: Dict, k: string, ghost b: Tree, ghost todo: set<string>)
    requires Building(result, overlay, b, todo) && k in todo
    modifies result
    ensures old(result.Repr) <= result.Repr && fresh(result.Repr - old(result.Repr) - overlay.Repr)
    ensures Building(result, overlay, b, todo - {k})
    decreases overlay.Repr, 0
  {
    MergeKidsStep(b.kids, overlay.tree, todo, k);
    EntrySound(overlay, k);
    BuildKey(result, k, overlay.items[k]);
    assert unchanged(overlay.Repr);
  }

  /** The loop body: merge into a new dictionary when both sides are dictionaries, else store. */
  method BuildKey(result: Dict, k: string, value: Value)
    requires result.Sound() && SoundValue(value) && result !in ReprOf(value)
    modifies result
    ensures result.Sound()
    ensures old(result.Repr) <= result.Repr && fresh(result.Repr - old(result.Repr) - ReprOf(value))
    ensures var t := old(result.tree).kids;
            result.tree == Node(t[k := if k in t then Merge(t[k], TreeOf(value)) else TreeOf(value)])
    decreases ReprOf(value), 4
  {
    EntrySound(result, k);
    var v, news := MergedEntry(result, k, value);
    result.Store(k, v);
  }

  /** The value the merge stores under one key: a merged dictionary, or the overlay's value. */
  method MergedEntry(result: Dict, k: string, value: Value) returns (v: Value, ghost news: set<Dict>)
    requires result.Sound() && SoundValue(value) && result !in ReprOf(value)
    ensures SoundValue(v) && fresh(news)
    ensures ReprOf(v) <= news + EntryRepr(result, k) + ReprOf(value)
    ensures result !in ReprOf(v)
    ensures TreeOf(v) == if k in result.tree.kids then Merge(result.tree.kids[k], TreeOf(value)) else TreeOf(value)
    decreases ReprOf(value), 3
  {
    EntrySound(result, k);
    v, news := value, {};
    if k in result.items && result.items[k].Sub? && value.Sub? {
      var sub;
      sub, news := MergeNew(result.items[k].d, value.d);
      v := Sub(sub);
    }
  }
}
