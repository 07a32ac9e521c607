/** The scheduler's fixed-size result table: linear scans, reuse of freed slots and circular
    eviction. Proved to behave as a map that a query consumes from. */
module ResultTable {
  import opened Wrappers

  datatype Status = Pending | Running | Completed | Failed | Cancelled

  datatype Resp = Resp(taskId: nat, status: Status, tokens: nat, inferenceMs: nat, totalMs: nat)

  datatype Record = Record(status: Status, resp: Resp)

  datatype Slot = Empty | InUse(id: nat, record: Record)

  /** What a query hands back: the stored response under the stored status. */
  function Answer(r: Record): Resp {
    r.resp.(status := r.status)
  }

  // ---------------------------------------------------------------- scans

  predicate Holds(s: Slot, id: nat) {
    s.InUse? && s.id == id
  }

  /** First slot from `from` on that holds `id`, or the table size. */
  function FindId(s: seq<Slot>, id: nat, from: nat): (i: nat)
    requires from <= |s|
    ensures from <= i <= |s|
    ensures i < |s| ==> Holds(s[i], id)
    ensures forall j :: from <= j < i ==> !Holds(s[j], id)
    decreases |s| - from
  {
    if from == |s| || Holds(s[from], id) then from else FindId(s, id, from + 1)
  }

  /** First empty slot from `from` on, or the table size. */
  function FindEmpty(s: seq<Slot>, from: nat): (i: nat)
    requires from <= |s|
    ensures from <= i <= |s|
    ensures i < |s| ==> s[i].Empty?
    ensures forall j :: from <= j < i ==> s[j].InUse?
    decreases |s| - from
  {
    if from == |s| || s[from].Empty? then from else FindEmpty(s, from + 1)
  }

  datatype Track = Track(slots: seq<Slot>, evict: nat) {
    ghost predicate Valid() {
      && evict < |slots|
      && forall i, j :: 0 <= i < j < |slots| && slots[i].InUse? && slots[j].InUse? ==> slots[i].id != slots[j].id
    }

    ghost predicate Full() {
      forall i :: 0 <= i < |slots| ==> slots[i].InUse?
    }
  }

  /** `task_track_add`: refresh the record of `id`, else take the first empty slot, else evict. */
  function Added(t: Track, id: nat, r: Record): Track
    requires t.evict < |t.slots|
  {
    var i := FindId(t.slots, id, 0);
    var e := FindEmpty(t.slots, 0);
    if i < |t.slots| then t.(slots := t.slots[i := InUse(id, r)])
    else if e < |t.slots| then t.(slots := t.slots[e := InUse(id, r)])
    else Track(t.slots[t.evict := InUse(id, r)], (t.evict + 1) % |t.slots|)
  }

  /** `task_track_query`: hand back the record of `id` and free its slot. */
  function Queried(t: Track, id: nat): (Track, Option<Resp>) {
    var i := FindId(t.slots, id, 0);
    if i < |t.slots| then
      (t.(slots := t.slots[i := Empty]), Some(Answer(t.slots[i].record)))
    else
      (t, None)
  }

  class TaskTrack {
    var slots: array<Slot>
    var evictIdx: nat

    ghost predicate Valid()
      reads this, slots
    {
      Snapshot().Valid()
    }

    ghost function Snapshot(): Track
      reads this, slots
    {
      Track(slots[..], evictIdx)
    }

    constructor (size: nat)
      requires size > 0
      ensures Valid() && fresh(slots)
      ensures Snapshot() == Track(seq(size, _ => Empty), 0)
    {
      slots := new Slot[size](_ => Empty);
      evictIdx := 0;
    }

    method Add(id: nat, status: Status, resp: Resp)
      requires Valid()
      modifies this`evictIdx, slots
      ensures Snapshot() == Added(old(Snapshot()), id, Record(status, resp))
      ensures Valid()
    {
      AddedValid(Snapshot(), id, Record(status, resp));
      for i := 0 to slots.Length
        invariant Snapshot() == old(Snapshot())
        invariant forall j :: 0 <= j < i ==> !Holds(slots[j], id)
      {
        if slots[i].InUse? && slots[i].id == id {
          assert i == FindId(slots[..], id, 0);
          slots[i] := InUse(id, Record(status, resp));
          return;
        }
      }
      assert FindId(slots[..], id, 0) == slots.Length;
      for i := 0 to slots.Length
        invariant Snapshot() == old(Snapshot())
        invariant forall j :: 0 <= j < i ==> slots[j].InUse?
      {
        if slots[i].Empty? {
          assert i == FindEmpty(slots[..], 0);
          slots[i] := InUse(id, Record(status, resp));
          return;
        }
      }
      assert FindEmpty(slots[..], 0) == slots.Length;
      slots[evictIdx] := InUse(id, Record(status, resp));
      evictIdx := (evictIdx + 1) % slots.Length;
    }

    method Query(id: nat) returns (r: Option<Resp>)
      requires Valid()
      modifies slots
      ensures (Snapshot(), r) == Queried(old(Snapshot()), id)
      ensures Valid()
    {
      for i := 0 to slots.Length
        invariant Snapshot() == old(Snapshot())
        invariant forall j :: 0 <= j < i ==> !Holds(slots[j], id)
      {
        if slots[i].InUse? && slots[i].id == id {
          assert i == FindId(slots[..], id, 0);
          r := Some(Answer(slots[i].record));
          slots[i] := Empty;
          return;
        }
      }
      return None;
    }
  }

  lemma AddedValid(t: Track, id: nat, r: Record)
    requires t.Valid()
    ensures Added(t, id, r).Valid()
    ensures |Added(t, id, r).slots| == |t.slots|
  {
  }

  // ---------------------------------------------------------------- the map it stands for

  /** The record a query for `id` would find. */
  function Lookup(t: Track, id: nat): Option<Record> {
    var i := FindId(t.slots, id, 0);
    if i < |t.slots| then Some(t.slots[i].record) else None
  }

  lemma LookupAt(t: Track, id: nat, i: nat)
    requires t.Valid() && i < |t.slots| && Holds(t.slots[i], id)
    ensures Lookup(t, id) == Some(t.slots[i].record)
  {
  }

  /** The id an insertion of `id` pushes out, if any: only when every slot is in use. */
  function Victim(t: Track, id: nat): (v: Option<nat>)
    requires t.evict < |t.slots|
    ensures v.Some? <==> t.Full() && Lookup(t, id).None?
    ensures v.Some? ==> v.value != id && Lookup(t, v.value).Some?
  {
    if FindId(t.slots, id, 0) == |t.slots| && FindEmpty(t.slots, 0) == |t.slots|
    then Some(t.slots[t.evict].id)
    else None
  }

  /** Adding is a map update that forgets the victim and nothing else. */
  lemma AddIsMapUpdate(t: Track, id: nat, r: Record, other: nat)
    requires t.Valid()
    ensures Lookup(Added(t, id, r), id) == Some(r)
    ensures other != id ==>
              Lookup(Added(t, id, r), other) == if Victim(t, id) == Some(other) then None else Lookup(t, other)
  {
    var u := Added(t, id, r);
    AddedValid(t, id, r);
    var w := WrittenSlot(t, id);
    LookupAt(u, id, w);
    if other != id && Victim(t, id) != Some(other) {
      var i := FindId(t.slots, other, 0);
      if i < |t.slots| {
        assert u.slots[i] == t.slots[i];
        LookupAt(u, other, i);
      }
    }
  }

  /** The slot an insertion writes. */
  function WrittenSlot(t: Track, id: nat): (w: nat)
    requires t.evict < |t.slots|
    ensures w < |t.slots|
    ensures forall r :: Added(t, id, r).slots == t.slots[w := InUse(id, r)]
  {
    var i := FindId(t.slots, id, 0);
    var e := FindEmpty(t.slots, 0);
    if i < |t.slots| then i else if e < |t.slots| then e else t.evict
  }

  /** A query answers with the latest record, consumes it, and touches no other id. */
  lemma QueryConsumes(t: Track, id: nat, other: nat)
    requires t.Valid()
    ensures Queried(t, id).0.Valid()
    ensures Queried(t, id).1 == (match Lookup(t, id) case Some(r) => Some(Answer(r)) case None => None)
    ensures Lookup(Queried(t, id).0, id) == None
    ensures other != id ==> Lookup(Queried(t, id).0, other) == Lookup(t, other)
  {
    var u := Queried(t, id).0;
    var i, j := FindId(u.slots, other, 0), FindId(t.slots, other, 0);
    if other != id && i < |u.slots| {
      LookupAt(t, other, i);
    }
    if other != id && j < |t.slots| {
      LookupAt(u, other, j);
    }
  }

  // ---------------------------------------------------------------- query-free runs

  /** The table after adding `ids[k]` with `recs[k]` for every k, in order. */
  function AddAll(t: Track, ids: seq<nat>, recs: seq<Record>): (u: Track)
    requires t.evict < |t.slots| && |ids| == |recs|
    ensures u.evict < |u.slots|
  {
    if ids == [] then t
    else
      var n := |ids| - 1;
      Added(AddAll(t, ids[..n], recs[..n]), ids[n], recs[n])
  }

  function Fresh(size: nat): Track {
    Track(seq(size, _ => Empty), 0)
  }

  ghost predicate Distinct(ids: seq<nat>) {
    forall i, j :: 0 <= i < j < |ids| ==> ids[i] != ids[j]
  }

  /** The index into `ids` of the record that slot `j` holds: slots below the eviction index
      belong to the current lap, the others to the lap before. */
  function Resident(n: nat, evict: nat, size: nat, j: nat): int {
    if n < size then j
    else if j < evict then n - evict + j
    else n - evict - size + j
  }

  /** Slot j holds exactly the record of its resident index. */
  ghost predicate Window(t: Track, ids: seq<nat>, recs: seq<Record>, size: nat)
    requires |ids| == |recs|
  {
    var n := |ids|;
    && |t.slots| == size && t.evict < size
    && (n < size ==> t.evict == 0)
    && (n >= size ==> n >= size + t.evict)
    && forall j :: 0 <= j < size ==> InWindow(t.slots[j], t.evict, ids, recs, size, j)
  }

  ghost predicate InWindow(s: Slot, evict: nat, ids: seq<nat>, recs: seq<Record>, size: nat, j: nat)
    requires |ids| == |recs|
  {
    if |ids| < size && j >= |ids| then s == Empty
    else
      var k := Resident(|ids|, evict, size, j);
      0 <= k < |ids| && s == InUse(ids[k], recs[k])
  }

  lemma {:induction false} WindowKept(size: nat, ids: seq<nat>, recs: seq<Record>)
    requires size > 0 && |ids| == |recs| && Distinct(ids)
    ensures Window(AddAll(Fresh(size), ids, recs), ids, recs, size)
  {
    if ids != [] {
      var n := |ids| - 1;
      WindowKept(size, ids[..n], recs[..n]);
      WindowStep(AddAll(Fresh(size), ids[..n], recs[..n]), ids, recs, size);
    }
  }

  lemma WindowStep(t: Track, ids: seq<nat>, recs: seq<Record>, size: nat)
    requires |ids| == |recs| && ids != [] && Distinct(ids)
    requires Window(t, ids[..|ids| - 1], recs[..|ids| - 1], size)
    ensures Window(Added(t, ids[|ids| - 1], recs[|ids| - 1]), ids, recs, size)
  {
    if |ids| - 1 < size {
      WindowFill(t, ids, recs, size);
    } else {
      WindowEvict(t, ids, recs, size);
    }
  }

  /** In a window over the earlier ids the new id is absent and only the tail is empty. */
  lemma WindowScan(t: Track, ids: seq<nat>, recs: seq<Record>, size: nat)
    requires |ids| == |recs| && ids != [] && Distinct(ids)
    requires Window(t, ids[..|ids| - 1], recs[..|ids| - 1], size)
    ensures FindId(t.slots, ids[|ids| - 1], 0) == size
    ensures FindEmpty(t.slots, 0) == if |ids| - 1 < size then |ids| - 1 else size
  {
    var n := |ids| - 1;
    forall j | 0 <= j < size
      ensures !Holds(t.slots[j], ids[n])
      ensures t.slots[j].Empty? <==> n < size && j >= n
    {
      assert InWindow(t.slots[j], t.evict, ids[..n], recs[..n], size, j);
    }
    assert n < size ==> t.slots[n].Empty?;
  }

  lemma WindowFill(t: Track, ids: seq<nat>, recs: seq<Record>, size: nat)
    requires |ids| == |recs| && ids != [] && Distinct(ids) && |ids| - 1 < size
    requires Window(t, ids[..|ids| - 1], recs[..|ids| - 1], size)
    ensures Window(Added(t, ids[|ids| - 1], recs[|ids| - 1]), ids, recs, size)
  {
    var n := |ids| - 1;
    WindowScan(t, ids, recs, size);
    var u := Added(t, ids[n], recs[n]);
    assert u == Track(t.slots[n := InUse(ids[n], recs[n])], 0);
    forall j | 0 <= j < size
      ensures InWindow(u.slots[j], u.evict, ids, recs, size, j)
    {
      assert InWindow(t.slots[j], t.evict, ids[..n], recs[..n], size, j);
    }
  }

  lemma WindowEvict(t: Track, ids: seq<nat>, recs: seq<Record>, size: nat)
    requires |ids| == |recs| && ids != [] && Distinct(ids) && |ids| - 1 >= size
    requires Window(t, ids[..|ids| - 1], recs[..|ids| - 1], size)
    ensures Window(Added(t, ids[|ids| - 1], recs[|ids| - 1]), ids, recs, size)
  {
    var n := |ids| - 1;
    WindowScan(t, ids, recs, size);
    Wrap(t.evict, size);
    var e := if t.evict + 1 == size then 0 else t.evict + 1;
    var u := Added(t, ids[n], recs[n]);
    assert u == Track(t.slots[t.evict := InUse(ids[n], recs[n])], e);
    forall j | 0 <= j < size
      ensures InWindow(u.slots[j], e, ids, recs, size, j)
    {
      assert InWindow(t.slots[j], t.evict, ids[..n], recs[..n], size, j);
    }
  }

  lemma Wrap(e: nat, size: nat)
    requires e < size
    ensures (e + 1) % size == if e + 1 == size then 0 else e + 1
  {
  }

  /** In a run of additions of distinct ids and no query, the table holds exactly the most
      recent min(n, size) results: the others were evicted, oldest first. */
  lemma MostRecentKept(size: nat, ids: seq<nat>, recs: seq<Record>, k: nat)
    requires size > 0 && |ids| == |recs| && Distinct(ids) && k < |ids|
    ensures Lookup(AddAll(Fresh(size), ids, recs), ids[k]) == if k + size >= |ids| then Some(recs[k]) else None
  {
    var t := AddAll(Fresh(size), ids, recs);
    var n, e := |ids|, t.evict;
    WindowKept(size, ids, recs);
    WindowValid(t, ids, recs, size);
    if k + size >= n {
      var j := if n < size then k else if k >= n - e then k - (n - e) else k - (n - e - size);
      assert Resident(n, e, size, j) == k;
      LookupAt(t, ids[k], j);
    }
  }

  lemma WindowValid(t: Track, ids: seq<nat>, recs: seq<Record>, size: nat)
    requires |ids| == |recs| && Distinct(ids) && Window(t, ids, recs, size)
    ensures t.Valid()
  {
  }

  /** Nothing else is in the table. */
  lemma OnlyAddedIdsFound(size: nat, ids: seq<nat>, recs: seq<Record>, id: nat)
    requires size > 0 && |ids| == |recs| && Distinct(ids)
    requires Lookup(AddAll(Fresh(size), ids, recs), id).Some?
    ensures id in ids
  {
    WindowKept(size, ids, recs);
  }
}
