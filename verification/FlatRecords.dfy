/** Nested trees built from flat dot-separated records, and read back. */
module FlatRecords {
  import opened Wrappers
  import opened Trees

  const SEP: char := '.'

  // ---------------------------------------------------------------- split and join

  /** `key.split(".")`. */
  function Split(s: string): (p: Path)
    ensures p != []
  {
    if s == [] then [""]
    else if s[0] == SEP then [""] + Split(s[1..])
    else var rest := Split(s[1..]); [[s[0]] + rest[0]] + rest[1..]
  }

  function Join(p: Path): string
    requires p != []
  {
    if |p| == 1 then p[0] else p[0] + ([SEP] + Join(p[1..]))
  }

  predicate DotFree(p: Path) {
    forall i :: 0 <= i < |p| ==> '.' !in p[i]
  }

  lemma {:induction false} JoinSplit(s: string)
    ensures Join(Split(s)) == s
  {
    if s != [] {
      JoinSplit(s[1..]);
      if s[0] == SEP {
        JoinSep(Split(s[1..]));
      } else {
        JoinCons(s[0], Split(s[1..]));
      }
      assert s == [s[0]] + s[1..];
    }
  }

  /** Joining after one more leading separator, or one more leading character. */
  lemma JoinSep(p: Path)
    requires p != []
    ensures Join([""] + p) == [SEP] + Join(p)
  {
    assert ([""] + p)[1..] == p;
    assert "" + ([SEP] + Join(p)) == [SEP] + Join(p);
  }

  lemma JoinCons(c: char, p: Path)
    requires p != []
    ensures Join([[c] + p[0]] + p[1..]) == [c] + Join(p)
  {
    var q := [[c] + p[0]] + p[1..];
    assert q[1..] == p[1..];
    if |p| > 1 {
      var tail := [SEP] + Join(p[1..]);
      assert ([c] + p[0]) + tail == [c] + (p[0] + tail);
    }
  }

  lemma {:induction false} SplitDotFree(s: string)
    ensures DotFree(Split(s))
  {
    if s != [] {
      SplitDotFree(s[1..]);
    }
  }

  lemma {:induction false} SplitJoin(p: Path)
    requires p != [] && DotFree(p)
    ensures Split(Join(p)) == p
  {
    if |p| == 1 {
      SplitSegment(p[0], []);
      assert p[0] + [] == p[0] && Split([]) == [""];
    } else {
      SplitJoin(p[1..]);
      SplitSegment(p[0], [SEP] + Join(p[1..]));
      assert p[0] + ([SEP] + Join(p[1..])) == Join(p);
      var rest := [SEP] + Join(p[1..]);
      assert rest[1..] == Join(p[1..]);
      assert Split(rest) == [""] + p[1..];
      assert p == [p[0]] + p[1..];
    }
  }

  /** A dot-free segment in front goes into the first part. */
  lemma {:induction false} SplitSegment(a: string, rest: string)
    requires SEP !in a && (rest == [] || rest[0] == SEP)
    ensures Split(a + rest) == [a] + Split(rest)[1..]
  {
    if a == [] {
      assert a + rest == rest;
      if rest != [] {
        assert Split(rest) == [""] + Split(rest[1..]);
      }
    } else {
      assert (a + rest)[1..] == a[1..] + rest;
      SplitSegment(a[1..], rest);
      var r := Split(a[1..] + rest);
      assert Split(a + rest) == [[a[0]] + r[0]] + r[1..];
      assert a == [a[0]] + a[1..];
      assert r[1..] == Split(rest)[1..];
    }
  }

  // ---------------------------------------------------------------- writing one path

  /** `_set_nested_value`: missing or non-dictionary parents become new dictionaries. */
  function SetPath(t: Tree, p: Path, v: Scalar): (r: Tree)
    requires t.Node? && p != []
    ensures r.Node?
    decreases p
  {
    Node(t.kids[p[0] := if |p| == 1 then Leaf(v) else SetPath(SubTarget(t.kids, p[0]), p[1..], v)])
  }

  /** One path is a prefix of the other (or they are equal). */
  predicate Comparable(p: Path, q: Path) {
    p <= q || q <= p
  }

  /** What a write changes: its own path, everything below it, and what it had to go through. */
  lemma {:induction false} SetLookup(t: Tree, p: Path, v: Scalar, q: Path)
    requires t.Node? && p != []
    ensures Lookup(SetPath(t, p, v), p) == Some(Leaf(v))
    ensures p < q ==> Lookup(SetPath(t, p, v), q) == None
    ensures q < p ==> Lookup(SetPath(t, p, v), q).Some? && Lookup(SetPath(t, p, v), q).value.Node?
    ensures !Comparable(p, q) ==> Lookup(SetPath(t, p, v), q) == Lookup(t, q)
    decreases p
  {
    if |p| > 1 {
      var sub := SubTarget(t.kids, p[0]);
      if q != [] && q[0] == p[0] {
        SetLookup(sub, p[1..], v, q[1..]);
        PrefixTail(p, q);
        PrefixTail(q, p);
      } else {
        SetLookup(sub, p[1..], v, []);
      }
    }
  }

  lemma PrefixTail(p: Path, q: Path)
    requires p != [] && q != [] && p[0] == q[0]
    ensures p <= q <==> p[1..] <= q[1..]
    ensures p < q <==> p[1..] < q[1..]
  {
    assert p == [p[0]] + p[1..] && q == [q[0]] + q[1..];
  }

  // ---------------------------------------------------------------- folding records

  datatype FlatRecord = FlatRecord(key: string, value: string)

  /** The tree after loading the records in order; records with an empty key are skipped. */
  function Fold(rs: seq<FlatRecord>): (t: Tree)
    ensures t.Node?
  {
    if rs == [] then Node(map[])
    else
      var t, r := Fold(rs[..|rs| - 1]), rs[|rs| - 1];
      if r.key == "" then t else SetPath(t, Split(r.key), Text(r.value))
  }

  /** Record i was stored and no later record's key is equal to, above or below its key. */
  ghost predicate Survives(rs: seq<FlatRecord>, i: nat) {
    && i < |rs| && rs[i].key != ""
    && forall j :: i < j < |rs| && rs[j].key != "" ==> !Comparable(Split(rs[j].key), Split(rs[i].key))
  }

  ghost predicate Wins(rs: seq<FlatRecord>, i: nat, p: Path, s: Scalar) {
    Survives(rs, i) && Split(rs[i].key) == p && Text(rs[i].value) == s
  }

  ghost predicate HasWinner(rs: seq<FlatRecord>, p: Path, s: Scalar) {
    exists i: nat :: Wins(rs, i, p, s)
  }

  /** The leaves of the loaded tree are exactly the surviving records. */
  lemma {:induction false} LeavesAreSurvivors(rs: seq<FlatRecord>, p: Path, s: Scalar)
    ensures Lookup(Fold(rs), p) == Some(Leaf(s)) <==> exists i: nat :: Wins(rs, i, p, s)
  {
    if rs != [] {
      var n := |rs| - 1;
      LeavesAreSurvivors(rs[..n], p, s);
      WinnerGrow(rs, p, s);
      if rs[n].key != "" {
        SetLookup(Fold(rs[..n]), Split(rs[n].key), Text(rs[n].value), p);
      }
    }
  }

  lemma SurvivesPrefix(rs: seq<FlatRecord>, i: nat)
    requires i < |rs| - 1
    ensures Survives(rs, i) <==>
              && Survives(rs[..|rs| - 1], i)
              && (rs[|rs| - 1].key != "" ==> !Comparable(Split(rs[|rs| - 1].key), Split(rs[i].key)))
  {
    var n := |rs| - 1;
    forall j | i < j < n
      ensures rs[..n][j] == rs[j]
    {
    }
    if Survives(rs[..n], i) && (rs[n].key != "" ==> !Comparable(Split(rs[n].key), Split(rs[i].key))) {
      forall j | i < j < |rs| && rs[j].key != ""
        ensures !Comparable(Split(rs[j].key), Split(rs[i].key))
      {
        if j < n {
          assert rs[..n][j] == rs[j];
        }
      }
    }
  }

  /** Appending a record: it survives itself, and knocks out what it is comparable to. */
  lemma WinnerGrow(rs: seq<FlatRecord>, p: Path, s: Scalar)
    requires rs != []
    ensures var n := |rs| - 1;
            var q := Split(rs[n].key);
            HasWinner(rs, p, s) <==>
              if rs[n].key == "" then HasWinner(rs[..n], p, s)
              else if p == q then s == Text(rs[n].value)
              else HasWinner(rs[..n], p, s) && !Comparable(q, p)
  {
    var n := |rs| - 1;
    assert rs[n].key != "" ==> Survives(rs, n);
    if HasWinner(rs[..n], p, s) {
      var i: nat :| Wins(rs[..n], i, p, s);
      SurvivesPrefix(rs, i);
      assert Wins(rs, i, p, s) <==> Survives(rs, i);
    }
    if HasWinner(rs, p, s) {
      var i: nat :| Wins(rs, i, p, s);
      if i < n {
        SurvivesPrefix(rs, i);
        assert Wins(rs[..n], i, p, s);
      }
    }
    if rs[n].key != "" && p == Split(rs[n].key) && s == Text(rs[n].value) {
      assert Wins(rs, n, p, s);
    }
  }

  // ---------------------------------------------------------------- reading back

  /** `_deep_get`, Python's `None` being the leaf `Null`. */
  function DeepGet(t: Tree, key: string): Tree {
    if key == "" then Leaf(Null)
    else match Lookup(t, Split(key)) case Some(x) => x case None => Leaf(Null)
  }

  /** A key gives `None` when it is empty or leads nowhere, and else what its path leads to. */
  lemma DeepGetIff(t: Tree, key: string, x: Tree)
    requires x != Leaf(Null)
    ensures DeepGet(t, key) == x <==> key != "" && Lookup(t, Split(key)) == Some(x)
  {
  }

  /** After loading, looking up a key gives the last value written for it exactly when no
      later record's key is a proper segment-prefix or a proper extension of it. */
  lemma LookupAfterLoad(rs: seq<FlatRecord>, i: nat)
    requires i < |rs| && rs[i].key != "" && forall j :: i < j < |rs| ==> rs[j].key != rs[i].key
    ensures DeepGet(Fold(rs), rs[i].key) == Leaf(Text(rs[i].value)) <==>
              forall j :: i < j < |rs| && rs[j].key != "" ==>
                !(Split(rs[j].key) < Split(rs[i].key)) && !(Split(rs[i].key) < Split(rs[j].key))
  {
    var p, s := Split(rs[i].key), Text(rs[i].value);
    LeavesAreSurvivors(rs, p, s);
    OnlyLastWins(rs, i, s);
    if Survives(rs, i) {
      assert Wins(rs, i, p, s);
    }
    if forall j :: i < j < |rs| && rs[j].key != "" ==> !(Split(rs[j].key) < p) && !(p < Split(rs[j].key)) {
      forall j | i < j < |rs| && rs[j].key != ""
        ensures !Comparable(Split(rs[j].key), p)
      {
        SplitInjective(rs[j].key, rs[i].key);
      }
    }
  }

  /** Whatever the key, a text is found exactly when a surviving record wrote it there. */
  lemma TextAfterLoad(rs: seq<FlatRecord>, key: string, value: string)
    ensures DeepGet(Fold(rs), key) == Leaf(Text(value)) <==>
              exists i: nat :: Survives(rs, i) && rs[i].key == key && rs[i].value == value
  {
    DeepGetIff(Fold(rs), key, Leaf(Text(value)));
    LeavesAreSurvivors(rs, Split(key), Text(value));
    if i: nat :| Survives(rs, i) && rs[i].key == key && rs[i].value == value {
      assert Wins(rs, i, Split(key), Text(value));
    }
    if key != "" && HasWinner(rs, Split(key), Text(value)) {
      var i: nat :| Wins(rs, i, Split(key), Text(value));
      SplitInjective(rs[i].key, key);
    }
  }

  lemma OnlyLastWins(rs: seq<FlatRecord>, i: nat, s: Scalar)
    requires i < |rs| && rs[i].key != "" && forall j :: i < j < |rs| ==> rs[j].key != rs[i].key
    ensures forall m: nat :: Wins(rs, m, Split(rs[i].key), s) ==> m == i
  {
    forall m: nat | Wins(rs, m, Split(rs[i].key), s)
      ensures m == i
    {
      SplitInjective(rs[m].key, rs[i].key);
      assert m < i ==> Comparable(Split(rs[i].key), Split(rs[m].key));
    }
  }

  lemma SplitInjective(a: string, b: string)
    ensures Split(a) == Split(b) ==> a == b
  {
    JoinSplit(a);
    JoinSplit(b);
  }

  // ---------------------------------------------------------------- listing keys

  /** `Translator._collect_keys`: the prefix already ends in the separator, or is empty. */
  ghost function CollectKeys(t: Tree, prefix: string): set<string>
    requires t.Node?
    decreases t, 0
  {
    set k, s | k in t.kids && s in KeysUnder(t.kids[k], prefix + k) :: s
  }

  /** The keys contributed by one entry with full key `full`. */
  ghost function KeysUnder(v: Tree, full: string): set<string>
    decreases v, 1
  {
    if v.Node? then CollectKeys(v, full + [SEP]) else {full}
  }

  /** The listed keys are the leaf paths, joined. */
  lemma {:induction false} KeysAreLeafPaths(t: Tree, prefix: string, s: string)
    requires t.Node?
    ensures s in CollectKeys(t, prefix) <==> exists p: Path :: JoinsTo(t, prefix, p, s)
    decreases t
  {
    if s in CollectKeys(t, prefix) {
      var k :| k in t.kids && s in KeysUnder(t.kids[k], prefix + k);
      if t.kids[k].Node? {
        KeysAreLeafPaths(t.kids[k], prefix + k + [SEP], s);
        var q: Path :| JoinsTo(t.kids[k], prefix + k + [SEP], q, s);
        var p := [k] + q;
        assert p[1..] == q;
        assert prefix + (k + ([SEP] + Join(q))) == prefix + k + [SEP] + Join(q);
        assert JoinsTo(t, prefix, p, s);
      } else {
        assert [k][1..] == [];
        assert Join([k]) == k;
        assert JoinsTo(t, prefix, [k], s);
      }
    }
    if p: Path :| JoinsTo(t, prefix, p, s) {
      var k, q := p[0], p[1..];
      if q == [] {
        assert |p| == 1 && Join(p) == k;
        assert Lookup(t, p) == Lookup(t.kids[k], q) == Some(t.kids[k]);
        assert s in KeysUnder(t.kids[k], prefix + k);
      } else {
        assert prefix + (k + ([SEP] + Join(q))) == prefix + k + [SEP] + Join(q);
        assert JoinsTo(t.kids[k], prefix + k + [SEP], q, s);
        KeysAreLeafPaths(t.kids[k], prefix + k + [SEP], s);
        assert s in KeysUnder(t.kids[k], prefix + k);
      }
    }
  }

  ghost predicate JoinsTo(t: Tree, prefix: string, p: Path, s: string) {
    p != [] && Lookup(t, p).Some? && Lookup(t, p).value.Leaf? && s == prefix + Join(p)
  }

  /** The keys listed after a load are exactly the keys of the surviving records. */
  lemma KeysAfterLoad(rs: seq<FlatRecord>, s: string)
    ensures s in CollectKeys(Fold(rs), "") <==> exists i: nat :: Survives(rs, i) && rs[i].key == s
  {
    KeysAreLeafPaths(Fold(rs), "", s);
    if s in CollectKeys(Fold(rs), "") {
      var p: Path :| JoinsTo(Fold(rs), "", p, s);
      var v := Lookup(Fold(rs), p).value.value;
      LeavesAreSurvivors(rs, p, v);
      var i: nat :| Wins(rs, i, p, v);
      JoinSplit(rs[i].key);
      assert Survives(rs, i) && rs[i].key == s;
    }
    if i: nat :| Survives(rs, i) && rs[i].key == s {
      var p := Split(s);
      assert Wins(rs, i, p, Text(rs[i].value));
      LeavesAreSurvivors(rs, p, Text(rs[i].value));
      JoinSplit(s);
      assert JoinsTo(Fold(rs), "", p, s);
    }
  }

  // ---------------------------------------------------------------- strict writing

  /** `SyncTool._deep_set`: creates missing parents but fails on a parent that is a leaf. */
  function DeepSet(t: Tree, p: Path, v: Scalar): Option<Tree>
    requires t.Node? && p != []
    decreases p
  {
    if |p| == 1 then Some(Node(t.kids[p[0] := Leaf(v)]))
    else
      var sub := if p[0] in t.kids then t.kids[p[0]] else Node(map[]);
      if sub.Leaf? then None
      else match DeepSet(sub, p[1..], v)
           case Some(r) => Some(Node(t.kids[p[0] := r]))
           case None => None
  }

  /** It fails exactly when a leaf cuts the path off, and otherwise writes like the loader. */
  lemma {:induction false} DeepSetIff(t: Tree, p: Path, v: Scalar)
    requires t.Node? && p != []
    ensures DeepSet(t, p, v) == if CutOff(t, p) then None else Some(SetPath(t, p, v))
    decreases p
  {
    if |p| == 1 {
      assert !CutOff(t, p);
    } else {
      var sub := if p[0] in t.kids then t.kids[p[0]] else Node(map[]);
      if sub.Node? {
        DeepSetIff(sub, p[1..], v);
      }
    }
  }
}
