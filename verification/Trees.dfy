/** Translation trees: nested string-keyed dictionaries with scalar leaves, and the laws of
    the deep merge and of the synchronising merge over them. */
module Trees {
  import opened Wrappers

  /** Python's `None` and strings are the leaf values that the code distinguishes. */
  datatype Scalar = Null | Text(text: string)

  datatype Tree = Leaf(value: Scalar) | Node(kids: map<string, Tree>)

  type Path = seq<string>

  function Lookup(t: Tree, p: Path): Option<Tree> {
    if p == [] then Some(t)
    else if t.Node? && p[0] in t.kids then Lookup(t.kids[p[0]], p[1..])
    else None
  }

  ghost function LeafPaths(t: Tree): set<Path> {
    match t
    case Leaf(_) => {[]}
    case Node(kids) => set k, p | k in kids && p in LeafPaths(kids[k]) :: [k] + p
  }

  lemma {:induction false} LeafPathsAreLookups(t: Tree, p: Path)
    ensures p in LeafPaths(t) <==> Lookup(t, p).Some? && Lookup(t, p).value.Leaf?
    decreases p
  {
    if t.Node? && p != [] {
      assert p == [p[0]] + p[1..];
      if p[0] in t.kids {
        LeafPathsAreLookups(t.kids[p[0]], p[1..]);
      }
      if p in LeafPaths(t) {
        var k, q :| k in t.kids && q in LeafPaths(t.kids[k]) && p == [k] + q;
        assert k == p[0] && q == p[1..];
      }
    }
  }

  // ---------------------------------------------------------------- deep merge

  /** The tree both `_deep_merge` functions compute: dictionaries merge key by key, anything
      else is taken from the overlay. */
  function Merge(base: Tree, overlay: Tree): Tree
    decreases overlay
  {
    if base.Node? && overlay.Node? then Node(MergeKids(base.kids, overlay, overlay.kids.Keys)) else overlay
  }

  /** The dictionary after the overlay keys in `done` have been merged. */
  function MergeKids(base: map<string, Tree>, overlay: Tree, done: set<string>): (m: map<string, Tree>)
    requires overlay.Node? && done <= overlay.kids.Keys
    ensures m.Keys == base.Keys + done
    decreases overlay, 0
  {
    map k | k in base.Keys + done ::
      if k !in done then base[k]
      else if k in base then Merge(base[k], overlay.kids[k])
      else overlay.kids[k]
  }

  /** The entry a merge leaves at one key. */
  lemma MergedKid(base: Tree, overlay: Tree, k: string)
    requires base.Node? && overlay.Node?
    ensures Merge(base, overlay).Node? && Merge(base, overlay).kids.Keys == base.kids.Keys + overlay.kids.Keys
    ensures k in base.kids && k !in overlay.kids ==> Merge(base, overlay).kids[k] == base.kids[k]
    ensures k !in base.kids && k in overlay.kids ==> Merge(base, overlay).kids[k] == overlay.kids[k]
    ensures k in base.kids && k in overlay.kids ==>
              Merge(base, overlay).kids[k] == Merge(base.kids[k], overlay.kids[k])
  {
  }

  /** What a merge means, path by path: its leaves are the overlay's leaves, and those base
      leaves that the overlay neither reaches nor cuts off with a leaf of its own. */
  lemma {:induction false} MergeLeaves(base: Tree, overlay: Tree, p: Path, v: Scalar)
    requires base.Node? && overlay.Node?
    ensures Lookup(Merge(base, overlay), p) == Some(Leaf(v)) <==>
              || Lookup(overlay, p) == Some(Leaf(v))
              || (Lookup(base, p) == Some(Leaf(v)) && Lookup(overlay, p).None? && !CutOff(overlay, p))
    decreases p
  {
    if p != [] {
      var k := p[0];
      MergedKid(base, overlay, k);
      if k in base.kids && k in overlay.kids && base.kids[k].Node? && overlay.kids[k].Node? {
        MergeLeaves(base.kids[k], overlay.kids[k], p[1..], v);
      }
    }
  }

  /** Some proper prefix of `p` is a leaf of `t`. */
  predicate CutOff(t: Tree, p: Path) {
    p != [] && (t.Leaf? || (p[0] in t.kids && CutOff(t.kids[p[0]], p[1..])))
  }

  /** The dictionaries of a merge are the overlay's, and those of the base that it does not touch. */
  lemma {:induction false} MergeDictionaries(base: Tree, overlay: Tree, p: Path)
    requires base.Node? && overlay.Node?
    ensures IsNode(Merge(base, overlay), p) <==>
              IsNode(overlay, p) || (IsNode(base, p) && Lookup(overlay, p).None? && !CutOff(overlay, p))
    decreases p
  {
    if p != [] {
      var k := p[0];
      MergedKid(base, overlay, k);
      if k in base.kids && k in overlay.kids && base.kids[k].Node? && overlay.kids[k].Node? {
        MergeDictionaries(base.kids[k], overlay.kids[k], p[1..]);
      } else {
        LookupIn(Merge(base, overlay), p);
        LookupIn(base, p);
        LookupIn(overlay, p);
      }
    }
  }

  /** One step of a lookup, and what a leaf does to it. */
  lemma LookupIn(t: Tree, p: Path)
    requires t.Node? && p != []
    ensures var k, rest := p[0], p[1..];
            && Lookup(t, p) == (if k in t.kids then Lookup(t.kids[k], rest) else None)
            && (k in t.kids && t.kids[k].Leaf? ==> Lookup(t, p) == if rest == [] then Some(t.kids[k]) else None)
            && (CutOff(t, p) <==> k in t.kids && CutOff(t.kids[k], rest))
            && (k in t.kids && t.kids[k].Leaf? ==> (CutOff(t, p) <==> rest != []))
  {
  }

  predicate IsNode(t: Tree, p: Path) {
    Lookup(t, p).Some? && Lookup(t, p).value.Node?
  }

  predicate IsLeaf(t: Tree, p: Path) {
    Lookup(t, p).Some? && Lookup(t, p).value.Leaf?
  }

  lemma {:induction false} CutOffIff(t: Tree, p: Path)
    ensures CutOff(t, p) <==> exists q: Path :: q < p && IsLeaf(t, q)
    decreases p
  {
    if p != [] && t.Leaf? {
      assert [] < p && IsLeaf(t, []);
    } else if p != [] {
      var k, rest := p[0], p[1..];
      assert p == [k] + rest;
      if CutOff(t, p) {
        CutOffIff(t.kids[k], rest);
        var q: Path :| q < rest && IsLeaf(t.kids[k], q);
        LookupIn(t, [k] + q);
        assert ([k] + q)[1..] == q && [k] + q < p && IsLeaf(t, [k] + q);
      }
      if q: Path :| q < p && IsLeaf(t, q) {
        assert q != [];
        LookupIn(t, q);
        assert q[0] == k && q[1..] < rest && IsLeaf(t.kids[k], q[1..]);
        CutOffIff(t.kids[k], rest);
      }
    }
  }

  lemma {:induction false} MergeIdempotent(t: Tree)
    ensures Merge(t, t) == t
  {
    if t.Node? {
      forall k | k in t.kids
        ensures Merge(t.kids[k], t.kids[k]) == t.kids[k]
      {
        MergeIdempotent(t.kids[k]);
      }
    }
  }

  /** Merging the same overlay again changes nothing. */
  lemma {:induction false} MergeAbsorbs(base: Tree, overlay: Tree)
    ensures Merge(Merge(base, overlay), overlay) == Merge(base, overlay)
    decreases overlay
  {
    if base.Node? && overlay.Node? {
      var m := Merge(base, overlay);
      forall k | k in overlay.kids
        ensures Merge(m.kids[k], overlay.kids[k]) == m.kids[k]
      {
        MergedKid(base, overlay, k);
        if k in base.kids {
          MergeAbsorbs(base.kids[k], overlay.kids[k]);
        } else {
          MergeIdempotent(overlay.kids[k]);
        }
      }
      forall k | k in m.kids
        ensures Merge(m, overlay).kids[k] == m.kids[k]
      {
        MergedKid(m, overlay, k);
      }
      assert Merge(m, overlay).kids == m.kids;
    } else {
      MergeIdempotent(overlay);
    }
  }

  /** Every key of dictionary `a` that meets a dictionary in `c` is a key of `c`, at all depths. */
  predicate Covered(a: Tree, c: Tree)
    decreases a
  {
    a.Node? && c.Node? ==> forall k :: k in a.kids ==> k in c.kids && Covered(a.kids[k], c.kids[k])
  }

  lemma {:induction false} CoveredIffSwallowed(a: Tree, c: Tree)
    ensures Covered(a, c) <==> Merge(a, c) == c
    decreases a
  {
    if a.Node? && c.Node? {
      forall k | k in a.kids && k in c.kids
        ensures Covered(a.kids[k], c.kids[k]) <==> Merge(a.kids[k], c.kids[k]) == c.kids[k]
      {
        CoveredIffSwallowed(a.kids[k], c.kids[k]);
      }
      var m := Merge(a, c);
      forall k { MergedKid(a, c, k); }
      if Covered(a, c) {
        assert m.kids == c.kids;
      }
    }
  }

  /** Grouping does not matter: wherever a dictionary, a leaf and a dictionary meet at one
      path, the third swallows the first. */
  predicate Associates(a: Tree, b: Tree, c: Tree)
    decreases a
  {
    && (a.Node? && b.Leaf? && c.Node? ==> Covered(a, c))
    && (a.Node? && b.Node? && c.Node? ==>
          forall k :: k in a.kids && k in b.kids && k in c.kids ==> Associates(a.kids[k], b.kids[k], c.kids[k]))
  }

  /** The exact condition for associativity of the merge. */
  lemma {:induction false} MergeAssociativeIff(a: Tree, b: Tree, c: Tree)
    ensures Merge(Merge(a, b), c) == Merge(a, Merge(b, c)) <==> Associates(a, b, c)
    decreases a
  {
    if a.Node? && b.Leaf? && c.Node? {
      CoveredIffSwallowed(a, c);
    } else if a.Node? && b.Node? && c.Node? {
      var ab, bc := Merge(a, b), Merge(b, c);
      var l, r := Merge(ab, c), Merge(a, bc);
      forall k: string
        ensures k in l.kids <==> k in a.kids || k in b.kids || k in c.kids
        ensures k in r.kids <==> k in a.kids || k in b.kids || k in c.kids
        ensures k in l.kids && !(k in a.kids && k in b.kids && k in c.kids) ==> l.kids[k] == r.kids[k]
        ensures k in a.kids && k in b.kids && k in c.kids ==>
                  && l.kids[k] == Merge(Merge(a.kids[k], b.kids[k]), c.kids[k])
                  && r.kids[k] == Merge(a.kids[k], Merge(b.kids[k], c.kids[k]))
      {
        MergedKid(a, b, k);
        MergedKid(b, c, k);
        MergedKid(ab, c, k);
        MergedKid(a, bc, k);
      }
      forall k | k in a.kids && k in b.kids && k in c.kids
        ensures l.kids[k] == r.kids[k] <==> Associates(a.kids[k], b.kids[k], c.kids[k])
      {
        MergeAssociativeIff(a.kids[k], b.kids[k], c.kids[k]);
      }
      assert l.kids.Keys == r.kids.Keys;
      assert l == r <==> l.kids == r.kids;
      if l.kids == r.kids {
        assert forall k :: k in a.kids && k in b.kids && k in c.kids ==> l.kids[k] == r.kids[k];
      }
    }
  }

  /** In particular grouping never matters when no path is dict, then leaf, then dict. */
  lemma {:induction false} NoFlipAssociates(a: Tree, b: Tree, c: Tree)
    requires forall p: Path :: !Flips(a, b, c, p)
    ensures Associates(a, b, c)
    decreases a
  {
    assert !Flips(a, b, c, []);
    if a.Node? && b.Node? && c.Node? {
      forall k | k in a.kids && k in b.kids && k in c.kids
        ensures Associates(a.kids[k], b.kids[k], c.kids[k])
      {
        forall p: Path ensures !Flips(a.kids[k], b.kids[k], c.kids[k], p) {
          assert !Flips(a, b, c, [k] + p);
        }
        NoFlipAssociates(a.kids[k], b.kids[k], c.kids[k]);
      }
    }
  }

  predicate Flips(a: Tree, b: Tree, c: Tree, p: Path) {
    && Lookup(a, p).Some? && Lookup(a, p).value.Node?
    && Lookup(b, p).Some? && Lookup(b, p).value.Leaf?
    && Lookup(c, p).Some? && Lookup(c, p).value.Node?
  }

  // ---------------------------------------------------------------- synchronising merge

  /** An optional translator; a raising translator answers None and the text is kept. */
  type Translator = Option<string -> Option<string>>

  function Translated(f: Translator, v: Scalar): Scalar {
    match (f, v)
    case (Some(g), Text(s)) => (match g(s) case Some(t) => Text(t) case None => v)
    case _ => v
  }

  /** The dictionary a reference sub-dictionary is merged into: the target's own, or a new one. */
  function SubTarget(target: map<string, Tree>, k: string): (t: Tree)
    ensures t.Node?
  {
    if k in target && target[k].Node? then target[k] else Node(map[])
  }

  function Sync(target: Tree, reference: Tree, overwrite: bool, f: Translator): (t: Tree)
    requires target.Node? && reference.Node?
    ensures t.Node?
    decreases reference
  {
    Node(SyncKids(target.kids, reference, overwrite, f, reference.kids.Keys))
  }

  function SyncKids(target: map<string, Tree>, reference: Tree, overwrite: bool, f: Translator, done: set<string>)
    : (m: map<string, Tree>)
    requires reference.Node? && done <= reference.kids.Keys
    ensures m.Keys == target.Keys + done
    decreases reference, 0
  {
    map k | k in target.Keys + done ::
      if k !in done then target[k]
      else match reference.kids[k]
           case Node(_) => Sync(SubTarget(target, k), reference.kids[k], overwrite, f)
           case Leaf(v) => if k !in target || overwrite then Leaf(Translated(f, v)) else target[k]
  }

  /** The entry a run leaves at one key. */
  lemma SyncedKid(target: Tree, reference: Tree, overwrite: bool, f: Translator, k: string)
    requires target.Node? && reference.Node?
    ensures var s := Sync(target, reference, overwrite, f);
            && s.kids.Keys == target.kids.Keys + reference.kids.Keys
            && (k in target.kids && k !in reference.kids ==> s.kids[k] == target.kids[k])
            && (k in reference.kids && reference.kids[k].Node? ==>
                  s.kids[k] == Sync(SubTarget(target.kids, k), reference.kids[k], overwrite, f))
            && (k in reference.kids && reference.kids[k].Leaf? ==>
                  s.kids[k] == if k !in target.kids || overwrite then Leaf(Translated(f, reference.kids[k].value))
                               else target.kids[k])
  {
  }

  /** The reference leaf paths that do not resolve in the target. */
  ghost function Missing(target: Tree, reference: Tree): set<Path> {
    set p | p in LeafPaths(reference) && Lookup(target, p).None?
  }

  /** The paths that one run counts as added. */
  ghost function AddedPaths(target: Tree, reference: Tree, overwrite: bool): set<Path> {
    if overwrite then LeafPaths(reference) else Missing(target, reference)
  }

  lemma AddedMeans(target: Tree, reference: Tree, overwrite: bool)
    ensures AddedPaths(target, reference, overwrite)
         == set p | p in LeafPaths(reference) && (overwrite || Lookup(target, p).None?)
  {
  }

  lemma {:induction false} MergeIntoEmpty(t: Tree)
    requires t.Node?
    ensures Merge(Node(map[]), t) == t
  {
    assert Merge(Node(map[]), t).kids == t.kids;
  }

  /** With overwrite and no translator the synchronising merge is the deep merge. */
  lemma {:induction false} SyncOverwriteIsMerge(target: Tree, reference: Tree)
    requires target.Node? && reference.Node?
    ensures Sync(target, reference, true, None) == Merge(target, reference)
    decreases reference
  {
    var s, m := Sync(target, reference, true, None), Merge(target, reference);
    forall k | k in s.kids
      ensures k in m.kids && s.kids[k] == m.kids[k]
    {
      SyncedKid(target, reference, true, None, k);
      MergedKid(target, reference, k);
      if k in reference.kids && reference.kids[k].Node? {
        SyncOverwriteIsMerge(SubTarget(target.kids, k), reference.kids[k]);
        MergeIntoEmpty(reference.kids[k]);
      }
    }
    assert s.kids == m.kids;
  }

  /** After a run every reference leaf path resolves in the target. */
  lemma {:induction false} SyncCovers(target: Tree, reference: Tree, overwrite: bool, f: Translator, p: Path)
    requires target.Node? && reference.Node? && p in LeafPaths(reference)
    ensures Lookup(Sync(target, reference, overwrite, f), p).Some?
    decreases p
  {
    LeafPathsAreLookups(reference, p);
    var k := p[0];
    SyncedKid(target, reference, overwrite, f, k);
    if reference.kids[k].Node? {
      LeafPathsAreLookups(reference.kids[k], p[1..]);
      SyncCovers(SubTarget(target.kids, k), reference.kids[k], overwrite, f, p[1..]);
    }
  }

  /** Without overwrite a second run, under any translator, changes nothing and adds nothing. */
  lemma {:induction false} SyncIdempotent(target: Tree, reference: Tree, f: Translator, g: Translator)
    requires target.Node? && reference.Node?
    ensures var t := Sync(target, reference, false, f);
            Sync(t, reference, false, g) == t && Missing(t, reference) == {}
    decreases reference
  {
    var t := Sync(target, reference, false, f);
    var u := Sync(t, reference, false, g);
    forall k | k in u.kids
      ensures k in t.kids && u.kids[k] == t.kids[k]
    {
      SyncedKid(target, reference, false, f, k);
      SyncedKid(t, reference, false, g, k);
      if k in reference.kids && reference.kids[k].Node? {
        SyncIdempotent(SubTarget(target.kids, k), reference.kids[k], f, g);
      }
    }
    assert u.kids == t.kids;
    forall p | p in LeafPaths(reference)
      ensures Lookup(t, p).Some?
    {
      SyncCovers(target, reference, false, f, p);
    }
  }

  /**
   * What a run leaves at a leaf of the reference: the target's own entry if there is one and it is not
   * to be overwritten, else the reference text, translated when there is a translator that answers.
   */
  lemma {:induction false} SyncAtLeaf(target: Tree, reference: Tree, overwrite: bool, f: Translator, p: Path, v: Scalar)
    requires target.Node? && reference.Node? && Lookup(reference, p) == Some(Leaf(v))
    ensures var found := Lookup(Sync(target, reference, overwrite, f), p);
            if !overwrite && Lookup(target, p).Some? then found == Lookup(target, p)
            else if f.Some? && v.Text? && f.value(v.text).Some? then found == Some(Leaf(Text(f.value(v.text).value)))
            else found == Some(Leaf(v))
    decreases p
  {
    var k := p[0];
    SyncedKid(target, reference, overwrite, f, k);
    if reference.kids[k].Node? {
      SyncAtLeaf(SubTarget(target.kids, k), reference.kids[k], overwrite, f, p[1..], v);
    }
  }

  /** What it leaves elsewhere: dictionaries of the reference, and the target's entries unless a leaf
      of the reference overwrites what they are in. */
  lemma {:induction false} SyncElsewhere(target: Tree, reference: Tree, overwrite: bool, f: Translator, p: Path)
    requires target.Node? && reference.Node?
    ensures IsNode(reference, p) ==> IsNode(Sync(target, reference, overwrite, f), p)
    ensures Lookup(reference, p).None? ==>
              Lookup(Sync(target, reference, overwrite, f), p)
              == if overwrite && CutOff(reference, p) then None else Lookup(target, p)
    decreases p
  {
    if p != [] {
      var k := p[0];
      SyncedKid(target, reference, overwrite, f, k);
      LookupIn(Sync(target, reference, overwrite, f), p);
      LookupIn(target, p);
      LookupIn(reference, p);
      if k in reference.kids && reference.kids[k].Node? {
        SyncElsewhere(SubTarget(target.kids, k), reference.kids[k], overwrite, f, p[1..]);
      }
    }
  }

  /** Without overwrite an existing leaf survives exactly when the reference has no dictionary
      at its path. */
  lemma {:induction false} SyncKeepsLeafIff(target: Tree, reference: Tree, f: Translator, p: Path)
    requires target.Node? && reference.Node?
    requires Lookup(target, p).Some? && Lookup(target, p).value.Leaf?
    ensures Lookup(Sync(target, reference, false, f), p) == Lookup(target, p) <==>
              !(Lookup(reference, p).Some? && Lookup(reference, p).value.Node?)
    decreases p
  {
    var k := p[0];
    SyncedKid(target, reference, false, f, k);
    if k in reference.kids && reference.kids[k].Node? && target.kids[k].Node? {
      SyncKeepsLeafIff(target.kids[k], reference.kids[k], f, p[1..]);
    }
  }

  // ---------------------------------------------------------------- counting additions

  /** The added paths whose first key is in `done`. */
  ghost function AddedIn(target: Tree, reference: Tree, overwrite: bool, done: set<string>): set<Path> {
    set p | p in AddedPaths(target, reference, overwrite) && p != [] && p[0] in done
  }

  ghost function Prefixed(k: string, paths: set<Path>): set<Path> {
    set p | p in paths :: [k] + p
  }

  lemma InPrefixed(k: string, paths: set<Path>, p: Path)
    ensures p in Prefixed(k, paths) <==> p != [] && p[0] == k && p[1..] in paths
  {
    if p != [] && p[0] == k {
      assert p == [k] + p[1..];
    }
    if p in Prefixed(k, paths) {
      var q :| q in paths && p == [k] + q;
      assert p[1..] == q;
    }
  }

  lemma {:induction false} PrefixedSize(k: string, paths: set<Path>)
    ensures |Prefixed(k, paths)| == |paths|
  {
    if p :| p in paths {
      var rest := Prefixed(k, paths - {p});
      PrefixedSize(k, paths - {p});
      InPrefixed(k, paths - {p}, [k] + p);
      forall q: Path
        ensures q in Prefixed(k, paths) <==> q in rest || q == [k] + p
      {
        InPrefixed(k, paths, q);
        InPrefixed(k, paths - {p}, q);
      }
      assert Prefixed(k, paths) == rest + {[k] + p};
    }
  }

  /** What processing key `k` adds, seen from the sub-trees. */
  ghost function AddedAt(target: Tree, reference: Tree, overwrite: bool, k: string): set<Path>
    requires target.Node? && reference.Node? && k in reference.kids
  {
    if reference.kids[k].Node? then AddedPaths(SubTarget(target.kids, k), reference.kids[k], overwrite)
    else if k !in target.kids || overwrite then {[]}
    else {}
  }

  lemma AddedUnderKey(target: Tree, reference: Tree, overwrite: bool, k: string, p: Path)
    requires target.Node? && reference.Node? && k in reference.kids
    ensures p in AddedIn(target, reference, overwrite, {k}) <==>
            p in Prefixed(k, AddedAt(target, reference, overwrite, k))
  {
    InPrefixed(k, AddedAt(target, reference, overwrite, k), p);
    if p != [] && p[0] == k {
      var q := p[1..];
      LeafPathsAreLookups(reference, p);
      LeafPathsAreLookups(reference.kids[k], q);
      assert Lookup(reference, p) == Lookup(reference.kids[k], q);
      assert Lookup(target, p) == if k in target.kids then Lookup(target.kids[k], q) else None;
      if q != [] {
        assert k !in target.kids || target.kids[k].Leaf? ==> Lookup(SubTarget(target.kids, k), q).None?;
      }
    }
  }

  /** One iteration of the merge loop adds exactly the paths under its key. */
  lemma AddedStep(target: Tree, reference: Tree, overwrite: bool, done: set<string>, k: string)
    requires target.Node? && reference.Node? && k in reference.kids && k !in done
    ensures |AddedIn(target, reference, overwrite, done + {k})|
         == |AddedIn(target, reference, overwrite, done)| + |AddedAt(target, reference, overwrite, k)|
  {
    var old', here := AddedIn(target, reference, overwrite, done), AddedIn(target, reference, overwrite, {k});
    assert AddedIn(target, reference, overwrite, done + {k}) == old' + here;
    assert old' !! here;
    forall p: Path
      ensures p in here <==> p in Prefixed(k, AddedAt(target, reference, overwrite, k))
    {
      AddedUnderKey(target, reference, overwrite, k, p);
    }
    assert here == Prefixed(k, AddedAt(target, reference, overwrite, k));
    PrefixedSize(k, AddedAt(target, reference, overwrite, k));
  }

  lemma AddedInAll(target: Tree, reference: Tree, overwrite: bool)
    requires target.Node? && reference.Node?
    ensures AddedIn(target, reference, overwrite, reference.kids.Keys) == AddedPaths(target, reference, overwrite)
    ensures AddedIn(target, reference, overwrite, {}) == {}
  {
  }
}
