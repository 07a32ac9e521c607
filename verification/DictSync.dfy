/** `SyncTool._merge_translations` on mutable dictionaries: the in-place recursive merge that
    counts the keys it adds. New sub-dictionaries are created, never shared with the reference. */
module DictSync {
  import opened Trees
  import opened DictMerges

  /** Merges `reference` into `target`; `added` is the number of reference leaf paths that did
      not resolve before (of all reference leaf paths when overwriting). The only dictionaries
      that join the target are new ones. */
  method MergeTranslations(target: Dict, reference: Dict, overwrite: bool, f: Translator)
    returns (added: nat, ghost news: set<Dict>)
    requires target.Valid() && reference.Sound() && target.Repr !! reference.Repr
    modifies target.Repr
    ensures target.Valid() && target.Repr == old(target.Repr) + news && fresh(news)
    ensures target.tree == Sync(old(target.tree), reference.tree, overwrite, f)
    ensures added == |AddedPaths(old(target.tree), reference.tree, overwrite)|
    ensures added == |set p | p in LeafPaths(reference.tree) && (overwrite || Lookup(old(target.tree), p).None?)|
    decreases reference.Repr, 2
  {
    ghost var t, o, r := target.tree, reference.tree, Regions(target);
    RegionsApart(target);
    SyncStarts(t, o, overwrite, f, o.kids.Keys);
    added, news := SyncLoop(target, reference, overwrite, f, t, o, r);
    SyncEnds(t, o, overwrite);
    AddedMeans(t, o, overwrite);
  }

  /** The loop over the reference items; t, o and r are the trees and regions at the start. */
  method SyncLoop(target: Dict, reference: Dict, overwrite: bool, f: Translator,
                  ghost t: Tree, ghost o: Tree, ghost r: map<string, set<Dict>>)
    returns (added: nat, ghost news: set<Dict>)
    requires o.Node? && Syncing(target, reference, t, o, r, overwrite, f, o.kids.Keys)
    requires forall k :: k in r ==> r[k] <= target.Repr
    modifies target.Repr
    ensures Syncing(target, reference, t, o, r, overwrite, f, {})
    ensures target.Repr == old(target.Repr) + news && fresh(news)
    ensures added == |AddedIn(t, o, overwrite, o.kids.Keys - {})|
    decreases reference.Repr, 1
  {
    added := 0;
    var todo := reference.items.Keys;
    SyncStarts(t, o, overwrite, f, todo);
    while todo != {}
      invariant old(target.Repr) <= target.Repr && fresh(target.Repr - old(target.Repr))
      invariant Syncing(target, reference, t, o, r, overwrite, f, todo)
      invariant added == |AddedIn(t, o, overwrite, o.kids.Keys - todo)|
    {
      var k :| k in todo;
      AddedStepTodo(t, o, overwrite, todo, k);
      var n;
      ghost var more;
      n, more := SyncNext(target, reference, k, overwrite, f, t, o, r, todo);
      added := added + n;
      todo := todo - {k};
    }
    news := target.Repr - old(target.Repr);
  }

  lemma SyncStarts(t: Tree, o: Tree, overwrite: bool, f: Translator, todo: set<string>)
    requires t.Node? && o.Node? && todo == o.kids.Keys
    ensures SyncKids(t.kids, o, overwrite, f, o.kids.Keys - todo) == t.kids
    ensures AddedIn(t, o, overwrite, o.kids.Keys - todo) == {}
  {
    assert o.kids.Keys - todo == {};
    assert SyncKids(t.kids, o, overwrite, f, {}) == t.kids;
  }

  lemma SyncEnds(t: Tree, o: Tree, overwrite: bool)
    requires t.Node? && o.Node?
    ensures o.kids.Keys - {} == o.kids.Keys
    ensures AddedIn(t, o, overwrite, o.kids.Keys - {}) == AddedPaths(t, o, overwrite)
  {
    assert o.kids.Keys - {} == o.kids.Keys;
    AddedInAll(t, o, overwrite);
  }

  lemma AddedStepTodo(t: Tree, o: Tree, overwrite: bool, todo: set<string>, k: string)
    requires t.Node? && o.Node? && k in todo && todo <= o.kids.Keys
    ensures |AddedIn(t, o, overwrite, o.kids.Keys - (todo - {k}))|
         == |AddedIn(t, o, overwrite, o.kids.Keys - todo)| + |AddedAt(t, o, overwrite, k)|
  {
    AddedStep(t, o, overwrite, o.kids.Keys - todo, k);
    assert o.kids.Keys - (todo - {k}) == (o.kids.Keys - todo) + {k};
  }

  /** The merge has treated all keys but those in `todo`; t, o and r describe the start. */
  ghost predicate Syncing(target: Dict, reference: Dict, t: Tree, o: Tree, r: map<string, set<Dict>>,
                          overwrite: bool, f: Translator, todo: set<string>)
    reads target, target.Repr, reference, reference.Repr
  {
    && reference.Sound() && reference.tree == o && target.Repr !! reference.Repr
    && target.Valid() && t.Node? && todo <= o.kids.Keys
    && target.tree == Node(SyncKids(t.kids, o, overwrite, f, o.kids.Keys - todo))
    && (forall k :: k in todo && k in target.items ==> k in r && EntryRepr(target, k) == r[k])
  }

  /** One iteration of the merge loop. */
  method SyncNext(target: Dict, reference: Dict, k: string, overwrite: bool, f: Translator,
                  ghost t: Tree, ghost o: Tree, ghost r: map<string, set<Dict>>, ghost todo: set<string>)
    returns (added: nat, ghost news: set<Dict>)
    requires Syncing(target, reference, t, o, r, overwrite, f, todo)
    requires k in todo
    modifies target, EntryRepr(target, k)
    ensures Syncing(target, reference, t, o, r, overwrite, f, todo - {k})
    ensures target.Repr == old(target.Repr) + news && fresh(news)
    ensures added == |AddedAt(t, o, overwrite, k)|
    decreases reference.Repr, 0
  {
    SyncKidsStep(t.kids, o, overwrite, f, todo, k);
    EntrySound(reference, k);
    EntryValid(target, k);
    ghost var was := Regions(target);
    WasIs(target, r, was, todo);
    added, news := SyncKey(target, k, reference.items[k], overwrite, f, was);
    assert unchanged(reference.Repr);
  }

  /** The regions of the entries still to be treated are those at the start. */
  lemma WasIs(target: Dict, r: map<string, set<Dict>>, was: map<string, set<Dict>>, todo: set<string>)
    requires target.Valid() && was == Regions(target)
    requires forall j :: j in todo && j in target.items ==> j in r && EntryRepr(target, j) == r[j]
    ensures forall j :: j in todo && j in was ==> j in r && was[j] == r[j]
  {
  }

  lemma SyncKidsStep(t: map<string, Tree>, o: Tree, overwrite: bool, f: Translator, todo: set<string>, k: string)
    requires o.Node? && k in todo && todo <= o.kids.Keys
    ensures var m := SyncKids(t, o, overwrite, f, o.kids.Keys - todo);
            && (k in m <==> k in t)
            && SubTarget(m, k) == SubTarget(t, k)
            && SyncKids(t, o, overwrite, f, o.kids.Keys - (todo - {k}))
            == m[k := SyncedEntry(m, k, o.kids[k], overwrite, f)]
  {
    var done := o.kids.Keys - todo;
    assert o.kids.Keys - (todo - {k}) == done + {k};
    OneMoreKey(t, o, overwrite, f, done, k);
  }

  lemma OneMoreKey(t: map<string, Tree>, o: Tree, overwrite: bool, f: Translator, done: set<string>, k: string)
    requires o.Node? && done + {k} <= o.kids.Keys && k !in done
    ensures var m := SyncKids(t, o, overwrite, f, done);
            && (k in m <==> k in t)
            && SubTarget(m, k) == SubTarget(t, k)
            && SyncKids(t, o, overwrite, f, done + {k}) == m[k := SyncedEntry(m, k, o.kids[k], overwrite, f)]
  {
    var m, n := SyncKids(t, o, overwrite, f, done), SyncKids(t, o, overwrite, f, done + {k});
    KidAt(t, o, overwrite, f, done + {k}, k);
    if k in t {
      KidAt(t, o, overwrite, f, done, k);
    }
    forall j | j in n && j != k ensures j in m && n[j] == m[j] {
      KidAt(t, o, overwrite, f, done, j);
      KidAt(t, o, overwrite, f, done + {k}, j);
    }
    SubTargetStays(t, m, k);
    MapsAgree(n, m[k := SyncedEntry(m, k, o.kids[k], overwrite, f)]);
  }

  /** One entry of a partial run. */
  lemma KidAt(t: map<string, Tree>, o: Tree, overwrite: bool, f: Translator, done: set<string>, j: string)
    requires o.Node? && done <= o.kids.Keys && j in t.Keys + done
    ensures var m := SyncKids(t, o, overwrite, f, done);
            j in m && m[j] == if j in done then SyncedEntry(t, j, o.kids[j], overwrite, f) else t[j]
  {
  }

  /** An entry that was not treated yet is the target's. */
  lemma SubTargetStays(t: map<string, Tree>, m: map<string, Tree>, k: string)
    requires (k in m <==> k in t) && (k in t ==> m[k] == t[k])
    ensures SubTarget(m, k) == SubTarget(t, k)
  {
  }

  lemma MapsAgree(a: map<string, Tree>, b: map<string, Tree>)
    requires a.Keys == b.Keys && forall j :: j in a ==> a[j] == b[j]
    ensures a == b
  {
  }

  /** The value a run leaves under one key. */
  ghost function SyncedEntry(m: map<string, Tree>, k: string, value: Tree, overwrite: bool, f: Translator): Tree {
    match value
    case Node(_) => Sync(SubTarget(m, k), value, overwrite, f)
    case Leaf(v) => if k !in m || overwrite then Leaf(Translated(f, v)) else m[k]
  }

  /** The number of leaf paths that treating one entry adds. */
  ghost function EntryCount(m: map<string, Tree>, k: string, value: Tree, overwrite: bool): nat {
    match value
    case Node(_) => |AddedPaths(SubTarget(m, k), value, overwrite)|
    case Leaf(_) => if k !in m || overwrite then 1 else 0
  }

  /** The loop body: a dictionary is merged into a sub-dictionary, made if needed; a leaf is
      written when the key is missing or overwriting is on. */
  method SyncKey(target: Dict, k: string, value: Value, overwrite: bool, f: Translator, ghost r: map<string, set<Dict>>)
    returns (added: nat, ghost news: set<Dict>)
    requires target.Valid() && SoundValue(value) && ReprOf(value) !! target.Repr
    requires OthersAre(target, k, r)
    modifies target, EntryRepr(target, k)
    ensures target.Valid() && target.Repr == old(target.Repr) + news && fresh(news)
    ensures var m := old(target.tree).kids;
            && target.tree == Node(m[k := SyncedEntry(m, k, old(TreeOf(value)), overwrite, f)])
            && added == EntryCount(m, k, old(TreeOf(value)), overwrite)
    ensures OthersAre(target, k, r)
    decreases ReprOf(value), 6
  {
    added, news := 0, {};
    EntryValid(target, k);
    match value
    case Sub(d) =>
      added, news := SyncDict(target, k, d, overwrite, f, r);
    case Atom(v) =>
      if k !in target.items || overwrite {
        target.Put(k, Atom(Translated(f, v)));
        added := 1;
      } else {
        assert target.tree.kids[k := target.tree.kids[k]] == target.tree.kids;
      }
  }

  /** A dictionary of the reference: make sure the target has one there, then recurse. */
  method SyncDict(target: Dict, k: string, d: Dict, overwrite: bool, f: Translator, ghost r: map<string, set<Dict>>)
    returns (added: nat, ghost news: set<Dict>)
    requires target.Valid() && d.Sound() && target.Repr !! d.Repr
    requires OthersAre(target, k, r)
    modifies target, EntryRepr(target, k)
    ensures target.Valid() && target.Repr == old(target.Repr) + news && fresh(news)
    ensures var m := old(target.tree).kids;
            && target.tree == Node(m[k := Sync(SubTarget(m, k), d.tree, overwrite, f)])
            && added == |AddedPaths(SubTarget(m, k), d.tree, overwrite)|
    ensures OthersAre(target, k, r)
    decreases d.Repr, 5
  {
    EntryValid(target, k);
    if k !in target.items || !target.items[k].Sub? {
      added, news := SyncNewDict(target, k, d, overwrite, f, r);
    } else {
      added, news := SyncChild(target, k, d, overwrite, f, r);
    }
  }

  /** `target[key] = {}`, then the recursive call on that new dictionary. */
  method SyncNewDict(target: Dict, k: string, d: Dict, overwrite: bool, f: Translator, ghost r: map<string, set<Dict>>)
    returns (added: nat, ghost news: set<Dict>)
    requires target.Valid() && d.Sound() && target.Repr !! d.Repr
    requires OthersAre(target, k, r)
    requires k !in target.items || !target.items[k].Sub?
    modifies target
    ensures target.Valid() && target.Repr == old(target.Repr) + news && fresh(news)
    ensures target.tree == Node(old(target.tree).kids[k := Sync(Node(map[]), d.tree, overwrite, f)])
    ensures added == |AddedPaths(Node(map[]), d.tree, overwrite)|
    ensures OthersAre(target, k, r)
    decreases d.Repr, 4
  {
    PutTwice(target.tree.kids, k, Node(map[]), Sync(Node(map[]), d.tree, overwrite, f));
    ghost var c := PutNewDict(target, k, r);
    added, news := SyncChild(target, k, d, overwrite, f, r);
    news := news + {c};
  }

  method PutNewDict(target: Dict, k: string, ghost r: map<string, set<Dict>>) returns (ghost c: Dict)
    requires target.Valid() && OthersAre(target, k, r)
    modifies target
    ensures target.Valid() && fresh(c) && target.Repr == old(target.Repr) + {c}
    ensures target.items == old(target.items)[k := Sub(c)] && c.Repr == {c}
    ensures target.tree == Node(old(target.tree).kids[k := Node(map[])])
    ensures OthersAre(target, k, r)
  {
    var d := new Dict();
    target.Put(k, Sub(d));
    c := d;
  }

  lemma PutTwice(m: map<string, Tree>, k: string, a: Tree, b: Tree)
    ensures m[k := a][k := b] == m[k := b]
  {
  }

  /** The recursive call on the sub-dictionary under one key. */
  method SyncChild(target: Dict, k: string, reference: Dict, overwrite: bool, f: Translator,
                   ghost r: map<string, set<Dict>>)
    returns (added: nat, ghost news: set<Dict>)
    requires target.Valid() && reference.Sound() && target.Repr !! reference.Repr
    requires OthersAre(target, k, r)
    requires k in target.items && target.items[k].Sub?
    modifies target, target.items[k].d.Repr
    ensures target.Valid() && target.items == old(target.items)
    ensures target.Repr == old(target.Repr) + news && fresh(news)
    ensures old(target.tree).kids[k].Node?
    ensures var m := old(target.tree).kids;
            target.tree == Node(m[k := Sync(m[k], reference.tree, overwrite, f)])
    ensures OthersAre(target, k, r)
    ensures added == |AddedPaths(old(target.tree).kids[k], reference.tree, overwrite)|
    decreases reference.Repr, 3
  {
    ghost var all := Regions(target);
    RegionsApart(target);
    EntryValid(target, k);
    assert target.items[k].d.Valid();
    ghost var rest := target.Repr - all[k];
    added, news := MergeTranslations(target.items[k].d, reference, overwrite, f);
    assert unchanged(rest);
    forall j | j in target.items && j != k
      ensures ReprOf(target.items[j]) == all[j] && ValidValue(target.items[j])
      ensures target.tree.kids[j] == TreeOf(target.items[j])
    {
      assert old(target.items[j].Sub? ==> target.items[j].d.Valid());
    }
    target.Regrow(k, all, news);
  }

  /** The entries of `d` but the one under `k` have the regions `r`. */
  ghost predicate OthersAre(d: Dict, k: string, r: map<string, set<Dict>>)
    reads d, d.Repr
    requires d.Valid()
  {
    forall j :: j in d.items && j != k ==> j in r && EntryRepr(d, j) == r[j]
  }
}
