/** Reading and writing mutable nested dictionaries by dot-separated keys, and the database
    loader that builds one from flat records. */
module DictPaths {
  import opened Wrappers
  import opened Trees
  import opened DictMerges
  import opened FlatRecords

  /** `_deep_get`: walks down one part at a time; Python's `None` is the atom `Null`. */
  method DeepGetIn(data: Dict, key: string) returns (v: Value)
    requires data.Valid()
    ensures ValidValue(v) && TreeOf(v) == DeepGet(data.tree, key)
  {
    if key == "" {
      return Atom(Null);
    }
    var parts := Split(key);
    var current := Sub(data);
    var i := 0;
    while i < |parts|
      invariant 0 <= i <= |parts|
      invariant ValidValue(current)
      invariant Lookup(data.tree, parts) == Lookup(TreeOf(current), parts[i..])
    {
      assert parts[i..][0] == parts[i] && parts[i..][1..] == parts[i + 1..];
      if current.Atom? || parts[i] !in current.d.items {
        return Atom(Null);
      }
      EntryValid(current.d, parts[i]);
      current := current.d.items[parts[i]];
      if current == Atom(Null) {
        assert Lookup(TreeOf(current), parts[i + 1..]) in {None, Some(Leaf(Null))};
        return Atom(Null);
      }
      i := i + 1;
    }
    assert parts[i..] == [];
    return current;
  }

  /** `_set_nested_value` down the path `p`: the loop of the source, one recursive call a part. */
  method SetNested(data: Dict, p: Path, v: Scalar) returns (ghost news: set<Dict>)
    requires data.Valid() && p != []
    modifies data.Repr
    ensures data.Valid() && data.tree == SetPath(old(data.tree), p, v)
    ensures data.Repr == old(data.Repr) + news && fresh(news)
    decreases |p|, 0
  {
    news := {};
    if |p| == 1 {
      data.Put(p[0], Atom(v));
    } else {
      news := OpenDict(data, p[0]);
      ghost var more := SetChild(data, p[0], p[1..], v);
      news := news + more;
    }
  }

  /** A missing or non-dictionary entry becomes a new dictionary. */
  method OpenDict(data: Dict, k: string) returns (ghost news: set<Dict>)
    requires data.Valid()
    modifies data
    ensures data.Valid() && data.Repr == old(data.Repr) + news && fresh(news)
    ensures data.tree == Node(old(data.tree).kids[k := SubTarget(old(data.tree).kids, k)])
    ensures k in data.items && data.items[k].Sub? && data.items[k].d.Repr <= data.Repr - {data}
  {
    news := {};
    if k !in data.items || !data.items[k].Sub? {
      var d := new Dict();
      news := {d};
      data.Put(k, Sub(d));
    } else {
      EntryValid(data, k);
      assert data.tree.kids[k := data.tree.kids[k]] == data.tree.kids;
    }
  }

  /** The rest of the walk, inside the sub-dictionary under one key. */
  method SetChild(data: Dict, k: string, p: Path, v: Scalar) returns (ghost news: set<Dict>)
    requires data.Valid() && p != [] && k in data.items && data.items[k].Sub?
    modifies data, data.items[k].d.Repr
    ensures data.Valid() && data.Repr == old(data.Repr) + news && fresh(news)
    ensures old(data.tree).kids[k].Node?
    ensures data.tree == Node(old(data.tree).kids[k := SetPath(old(data.tree).kids[k], p, v)])
    decreases |p|, 1
  {
    ghost var r := Regions(data);
    RegionsApart(data);
    EntryValid(data, k);
    assert data.items[k].d.Valid();
    news := SetNested(data.items[k].d, p, v);
    forall j | j in data.items && j != k
      ensures ReprOf(data.items[j]) == r[j] && ValidValue(data.items[j]) && data.tree.kids[j] == TreeOf(data.items[j])
    {
      assert old(data.items[j].Sub? ==> data.items[j].d.Valid());
    }
    data.Regrow(k, r, news);
  }

  /** The tree after a strict write: unchanged when the write fails. */
  function Written(t: Tree, p: Path, v: Scalar): Tree
    requires t.Node? && p != []
  {
    match DeepSet(t, p, v) case Some(r) => r case None => t
  }

  /** A strict write opens a sub-dictionary and goes on in it. */
  lemma WrittenStep(t: Tree, p: Path, v: Scalar)
    requires t.Node? && |p| > 1 && (p[0] in t.kids ==> t.kids[p[0]].Node?)
    ensures var sub := SubTarget(t.kids, p[0]);
            Written(t, p, v) == Node(t.kids[p[0] := sub][p[0] := Written(sub, p[1..], v)])
  {
    var sub := SubTarget(t.kids, p[0]);
    var done := Written(sub, p[1..], v);
    assert t.kids[p[0] := sub][p[0] := done] == t.kids[p[0] := done];
    if DeepSet(sub, p[1..], v).None? {
      DeepSetIff(sub, p[1..], v);
      assert p[0] in t.kids && t.kids[p[0] := sub] == t.kids;
    }
  }

  lemma CutOffStep(t: Tree, p: Path)
    requires t.Node? && |p| > 1 && (p[0] in t.kids ==> t.kids[p[0]].Node?)
    ensures CutOff(t, p) <==> CutOff(SubTarget(t.kids, p[0]), p[1..])
  {
  }

  /** `SyncTool._deep_set` down the path `p`: unlike the loader it raises at a parent that is a
      leaf, and then nothing has been written. */
  method DeepSetIn(data: Dict, p: Path, v: Scalar) returns (ok: bool, ghost news: set<Dict>)
    requires data.Valid() && p != []
    modifies data.Repr
    ensures data.Valid() && data.tree == Written(old(data.tree), p, v)
    ensures ok <==> !CutOff(old(data.tree), p)
    ensures data.Repr == old(data.Repr) + news && fresh(news)
    decreases |p|, 0
  {
    news := {};
    if |p| == 1 {
      data.Put(p[0], Atom(v));
      return true, news;
    }
    if p[0] in data.items && data.items[p[0]].Atom? {
      DeepSetIff(data.tree, p, v);
      return false, news;
    }
    EntryValid(data, p[0]);
    WrittenStep(data.tree, p, v);
    CutOffStep(data.tree, p);
    news := OpenDict(data, p[0]);
    ghost var more;
    ok, more := DeepSetChild(data, p[0], p[1..], v);
    news := news + more;
  }

  /** The rest of the strict walk, inside the sub-dictionary under one key. */
  method DeepSetChild(data: Dict, k: string, p: Path, v: Scalar) returns (ok: bool, ghost news: set<Dict>)
    requires data.Valid() && p != [] && k in data.items && data.items[k].Sub?
    modifies data, data.items[k].d.Repr
    ensures data.Valid() && data.Repr == old(data.Repr) + news && fresh(news)
    ensures old(data.tree).kids[k].Node?
    ensures ok <==> !CutOff(old(data.tree).kids[k], p)
    ensures data.tree == Node(old(data.tree).kids[k := Written(old(data.tree).kids[k], p, v)])
    decreases |p|, 1
  {
    ghost var r := Regions(data);
    RegionsApart(data);
    EntryValid(data, k);
    assert data.items[k].d.Valid();
    ok, news := DeepSetIn(data.items[k].d, p, v);
    forall j | j in data.items && j != k
      ensures ReprOf(data.items[j]) == r[j] && ValidValue(data.items[j]) && data.tree.kids[j] == TreeOf(data.items[j])
    {
      assert old(data.items[j].Sub? ==> data.items[j].d.Valid());
    }
    data.Regrow(k, r, news);
  }

  /** The fold of `DatabaseLoader.load`: records with an empty key are skipped. */
  method Load(records: seq<FlatRecord>) returns (result: Dict)
    ensures result.Valid() && fresh(result.Repr)
    ensures result.tree == Fold(records)
  {
    result := new Dict();
    for i := 0 to |records|
      invariant result.Valid() && fresh(result.Repr)
      invariant result.tree == Fold(records[..i])
    {
      assert records[..i + 1][..i] == records[..i];
      if records[i].key == "" {
        continue;
      }
      ghost var news := SetNested(result, Split(records[i].key), Text(records[i].value));
    }
    assert records[..|records|] == records;
  }

  /** `Translator._collect_keys`. */
  method CollectKeysIn(data: Dict, prefix: string) returns (keys: set<string>)
    requires data.Valid()
    ensures keys == CollectKeys(data.tree, prefix)
    decreases data.Repr
  {
    keys := {};
    var todo := data.items.Keys;
    while todo != {}
      invariant todo <= data.items.Keys
      invariant keys == KeysOf(data.tree, prefix, data.items.Keys - todo)
    {
      var k :| k in todo;
      EntryValid(data, k);
      KeysOfStep(data.tree, prefix, todo, k);
      var full := if prefix != "" then prefix + k else k;
      assert full == prefix + k;
      match data.items[k] {
        case Sub(d) =>
          var more := CollectKeysIn(d, full + [SEP]);
          keys := keys + more;
        case Atom(_) =>
          keys := keys + {full};
      }
      todo := todo - {k};
    }
    assert data.items.Keys - todo == data.tree.kids.Keys;
  }

  /** The keys contributed by the entries in `done`. */
  ghost function KeysOf(t: Tree, prefix: string, done: set<string>): set<string>
    requires t.Node?
  {
    set k, s | k in done && k in t.kids && s in KeysUnder(t.kids[k], prefix + k) :: s
  }

  lemma KeysOfStep(t: Tree, prefix: string, todo: set<string>, k: string)
    requires t.Node? && k in todo && todo <= t.kids.Keys
    ensures KeysOf(t, prefix, t.kids.Keys - (todo - {k}))
         == KeysOf(t, prefix, t.kids.Keys - todo) + KeysUnder(t.kids[k], prefix + k)
  {
  }
}
