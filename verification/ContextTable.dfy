/** The kernel context table: a fixed array scanned linearly, with TTL expiry, refines a map
    from (session, key) to (id, value, created, ttl). Memory allocation always succeeds. */
module ContextTable {
  import opened Wrappers

  const KEY_MAX: nat := 128

  datatype Error = InvalidParam | OutOfMemory | Timeout | NoSpace

  // ---------------------------------------------------------------- C strings

  /** `strscpy(dst, key, KEY_MAX)`: at most KEY_MAX - 1 characters are kept. */
  function Strscpy(key: string): string {
    if |key| > KEY_MAX - 1 then key[..KEY_MAX - 1] else key
  }

  /** `strncmp(a, b, n) == 0` on strings without NUL, the end of a string acting as NUL. */
  predicate StrncmpZero(a: string, b: string, n: nat) {
    if n == 0 then true
    else if a == [] || b == [] then a == b
    else a[0] == b[0] && StrncmpZero(a[1..], b[1..], n - 1)
  }

  function Take(s: string, n: nat): string {
    if |s| > n then s[..n] else s
  }

  lemma {:induction false} StrncmpIsPrefixEquality(a: string, b: string, n: nat)
    ensures StrncmpZero(a, b, n) <==> Take(a, n) == Take(b, n)
  {
    if n > 0 && a != [] && b != [] {
      StrncmpIsPrefixEquality(a[1..], b[1..], n - 1);
      assert Take(a, n) == [a[0]] + Take(a[1..], n - 1);
      assert Take(b, n) == [b[0]] + Take(b[1..], n - 1);
    }
  }

  /** Keys are compared exactly as if both had been cut to KEY_MAX - 1 characters first. */
  lemma KeyComparison(stored: string, key: string)
    requires |stored| <= KEY_MAX - 1
    ensures StrncmpZero(stored, key, KEY_MAX - 1) <==> stored == Strscpy(key)
  {
    StrncmpIsPrefixEquality(stored, key, KEY_MAX - 1);
  }

  // ---------------------------------------------------------------- the abstract map

  datatype Key = Key(session: nat, name: string)

  datatype Rec = Rec(id: nat, value: seq<Byte>, created: nat, ttl: nat)

  datatype Context = Context(entries: map<Key, Rec>, nextId: nat) {
    /** Ids are positive, below the next id and pairwise distinct. */
    ghost predicate Valid() {
      && nextId > 0
      && (forall k :: k in entries ==> 0 < entries[k].id < nextId)
      && (forall j, k :: j in entries && k in entries && entries[j].id == entries[k].id ==> j == k)
    }
  }

  predicate Expired(r: Rec, now: nat) {
    r.ttl > 0 && now >= r.created && now - r.created >= r.ttl
  }

  /** Storing is a map update under a fresh id; it fails only for a new key in a full table. */
  function Stored(c: Context, capacity: nat, k: Key, value: seq<Byte>, ttl: nat, now: nat)
    : (Context, Result<nat, Error>)
  {
    if k in c.entries || |c.entries| < capacity then
      (Context(c.entries[k := Rec(c.nextId, value, now, ttl)], c.nextId + 1), Ok(c.nextId))
    else
      (c, Err(OutOfMemory))
  }

  /** The key a request addresses: by id when the id is positive, by (session, key) otherwise. */
  ghost predicate Addresses(c: Context, k: Key, session: nat, key: string, entryId: nat) {
    && k in c.entries
    && (if entryId > 0 then c.entries[k].id == entryId else k == Key(session, Strscpy(key)))
  }

  /** Reading one entry: expiry deletes it, a short buffer is refused, otherwise its value. */
  function Read(c: Context, k: Key, room: nat, now: nat): (Context, Result<seq<Byte>, Error>)
    requires k in c.entries
  {
    var r := c.entries[k];
    if Expired(r, now) then (Context(c.entries - {k}, c.nextId), Err(Timeout))
    else if room < |r.value| then (c, Err(NoSpace))
    else (c, Ok(r.value))
  }

  ghost function Retrieved(c: Context, session: nat, key: string, entryId: nat, room: nat, now: nat)
    : (Context, Result<seq<Byte>, Error>)
  {
    if exists k :: Addresses(c, k, session, key, entryId) then
      var k :| Addresses(c, k, session, key, entryId);
      Read(c, k, room, now)
    else
      (c, Err(InvalidParam))
  }

  // ---------------------------------------------------------------- the array

  datatype Slot = Free | Used(id: nat, session: nat, key: string, value: seq<Byte>, created: nat, ttl: nat)

  function SlotKey(s: Slot): Key
    requires s.Used?
  {
    Key(s.session, s.key)
  }

  function SlotRec(s: Slot): Rec
    requires s.Used?
  {
    Rec(s.id, s.value, s.created, s.ttl)
  }

  ghost predicate WellFormed(s: seq<Slot>, nextId: nat) {
    && nextId > 0
    && (forall i :: 0 <= i < |s| && s[i].Used? ==> |s[i].key| <= KEY_MAX - 1 && 0 < s[i].id < nextId)
    && (forall i, j :: 0 <= i < j < |s| && s[i].Used? && s[j].Used? ==>
          SlotKey(s[i]) != SlotKey(s[j]) && s[i].id != s[j].id)
  }

  ghost function Entries(s: seq<Slot>): map<Key, Rec> {
    if s == [] then map[]
    else
      var rest, last := Entries(s[..|s| - 1]), s[|s| - 1];
      if last.Used? then rest[SlotKey(last) := SlotRec(last)] else rest
  }

  lemma {:induction false} EntriesAt(s: seq<Slot>, nextId: nat, i: nat)
    requires WellFormed(s, nextId) && i < |s| && s[i].Used?
    ensures SlotKey(s[i]) in Entries(s)
    ensures Entries(s)[SlotKey(s[i])] == SlotRec(s[i])
  {
    var n := |s| - 1;
    if i < n {
      EntriesAt(s[..n], nextId, i);
    }
  }

  lemma {:induction false} EntriesOnlyFromSlots(s: seq<Slot>, k: Key) returns (i: nat)
    requires k in Entries(s)
    ensures i < |s| && s[i].Used? && SlotKey(s[i]) == k && Entries(s)[k] == SlotRec(s[i])
  {
    i := |s| - 1;
    if s[i].Free? || SlotKey(s[i]) != k {
      i := EntriesOnlyFromSlots(s[..i], k);
    }
  }

  /** Two tables hold the same entries but for slot `i`. */
  lemma EntriesElsewhere(s: seq<Slot>, n: nat, t: seq<Slot>, m: nat, i: nat, k: Key)
    requires WellFormed(s, n) && WellFormed(t, m)
    requires i < |s| == |t|
    requires forall j :: 0 <= j < |s| && j != i ==> s[j] == t[j]
    requires s[i].Used? ==> SlotKey(s[i]) != k
    requires t[i].Used? ==> SlotKey(t[i]) != k
    ensures k in Entries(s) <==> k in Entries(t)
    ensures k in Entries(s) ==> Entries(s)[k] == Entries(t)[k]
  {
    if k in Entries(s) {
      var j := EntriesOnlyFromSlots(s, k);
      EntriesAt(t, m, j);
    } else if k in Entries(t) {
      var j := EntriesOnlyFromSlots(t, k);
      EntriesAt(s, n, j);
    }
  }

  ghost predicate HasFree(s: seq<Slot>) {
    exists i :: 0 <= i < |s| && s[i].Free?
  }

  /** The table is full exactly when the map has as many entries as the array has slots. */
  lemma {:induction false} FullTable(s: seq<Slot>, nextId: nat)
    requires WellFormed(s, nextId)
    ensures |Entries(s)| <= |s|
    ensures HasFree(s) <==> |Entries(s)| < |s|
  {
    if s != [] {
      FullTable(s[..|s| - 1], nextId);
      FreePrefix(s);
      if s[|s| - 1].Used? {
        LastEntryNew(s, nextId);
      }
    }
  }

  lemma FreePrefix(s: seq<Slot>)
    requires s != []
    ensures HasFree(s) <==> HasFree(s[..|s| - 1]) || s[|s| - 1].Free?
  {
    var t := s[..|s| - 1];
    if HasFree(t) {
      var i :| 0 <= i < |t| && t[i].Free?;
      assert s[i].Free?;
    }
    if i :| 0 <= i < |t| && s[i].Free? {
      assert t[i].Free?;
    }
  }

  lemma LastEntryNew(s: seq<Slot>, nextId: nat)
    requires WellFormed(s, nextId) && s != [] && s[|s| - 1].Used?
    ensures SlotKey(s[|s| - 1]) !in Entries(s[..|s| - 1])
  {
    var n := |s| - 1;
    if SlotKey(s[n]) in Entries(s[..n]) {
      var j := EntriesOnlyFromSlots(s[..n], SlotKey(s[n]));
    }
  }

  lemma {:induction false} EmptyTable(s: seq<Slot>)
    requires forall i :: 0 <= i < |s| ==> s[i].Free?
    ensures Entries(s) == map[]
  {
    if s != [] {
      EmptyTable(s[..|s| - 1]);
    }
  }

  class Table {
    var slots: array<Slot>
    var nextId: nat

    ghost predicate Valid()
      reads this, slots
    {
      WellFormed(slots[..], nextId)
    }

    ghost function Contents(): Context
      reads this, slots
      requires Valid()
    {
      Context(Entries(slots[..]), nextId)
    }

    constructor (capacity: nat)
      ensures Valid() && fresh(slots) && slots.Length == capacity
      ensures Contents() == Context(map[], 1)
    {
      slots := new Slot[capacity](_ => Free);
      nextId := 1;
      new;
      EmptyTable(slots[..]);
    }

    /** The scan of `Store`: the slot holding the key, else the first free slot, else -1. */
    method FindSlot(session: nat, key: string) returns (entry: int)
      requires Valid()
      ensures -1 <= entry < slots.Length
      ensures entry == -1 ==> Misses(slots[..], Key(session, Strscpy(key))) && !HasFree(slots[..])
      ensures entry >= 0 ==>
                && (slots[entry].Free? || SlotKey(slots[entry]) == Key(session, Strscpy(key)))
                && Misses(slots[..][entry := Free], Key(session, Strscpy(key)))
    {
      ghost var s, k := slots[..], Key(session, Strscpy(key));
      entry := -1;
      for i := 0 to slots.Length
        invariant entry == -1 || (0 <= entry < i && s[entry].Free?)
        invariant entry == -1 ==> forall j :: 0 <= j < i ==> s[j].Used?
        invariant Misses(s[..i], k)
      {
        assert s[i] == slots[i];
        if slots[i].Free? {
          if entry == -1 {
            entry := i;
          }
        } else {
          KeyComparison(slots[i].key, key);
          if slots[i].session == session && StrncmpZero(slots[i].key, key, KEY_MAX - 1) {
            MissesElsewhere(s, nextId, i, k);
            return i;
          }
        }
        assert s[..i + 1] == s[..i] + [s[i]];
      }
      assert s[..|s|] == s;
    }

    method Store(session: nat, key: string, value: seq<Byte>, ttl: nat, now: nat) returns (r: Result<nat, Error>)
      requires Valid()
      modifies this`nextId, slots
      ensures Valid()
      ensures (Contents(), r) == Stored(old(Contents()), slots.Length, Key(session, Strscpy(key)), value, ttl, now)
      ensures r.Err? <==>
              Key(session, Strscpy(key)) !in old(Contents().entries) && |old(Contents().entries)| >= slots.Length
      ensures r.Err? ==> r.error == OutOfMemory && Contents() == old(Contents())
      ensures r.Ok? ==> r.value == old(nextId)
    {
      ghost var s, k := slots[..], Key(session, Strscpy(key));
      var entry := FindSlot(session, key);
      if entry == -1 {
        StoreRefused(s, nextId, k, value, ttl, now);
        return Err(OutOfMemory);
      }
      StoreWrites(s, nextId, entry, k, value, ttl, now);
      slots[entry] := Used(nextId, session, Strscpy(key), value, now, ttl);
      assert slots[..] == s[entry := slots[entry]];
      nextId := nextId + 1;
      return Ok(nextId - 1);
    }

    method Retrieve(session: nat, key: string, entryId: nat, room: nat, now: nat) returns (r: Result<seq<Byte>, Error>)
      requires Valid()
      modifies slots
      ensures Valid()
      ensures (Contents(), r) == Retrieved(old(Contents()), session, key, entryId, room, now)
    {
      for i := 0 to slots.Length
        invariant slots[..] == old(slots[..]) && nextId == old(nextId)
        invariant forall j :: 0 <= j < i && slots[j].Used? ==>
                    !Addresses(Contents(), SlotKey(slots[j]), session, key, entryId)
      {
        if slots[i].Free? {
          continue;
        }
        ghost var s := slots[..];
        assert s[i] == slots[i];
        KeyComparison(slots[i].key, key);
        EntriesAt(s, nextId, i);
        if (entryId > 0 && slots[i].id == entryId) ||
           (entryId == 0 && slots[i].session == session && StrncmpZero(slots[i].key, key, KEY_MAX - 1))
        {
          UniqueAddress(s, nextId, i, session, key, entryId, room, now);
          if slots[i].ttl > 0 {
            if now >= slots[i].created && now - slots[i].created >= slots[i].ttl {
              slots[i] := Free;
              EntryFreed(s, slots[..], nextId, i);
              return Err(Timeout);
            }
          }
          if room < |slots[i].value| {
            return Err(NoSpace);
          }
          return Ok(slots[i].value);
        }
      }
      NothingAddressed(slots[..], nextId, session, key, entryId);
      return Err(InvalidParam);
    }
  }

  lemma NothingAddressed(s: seq<Slot>, nextId: nat, session: nat, key: string, entryId: nat)
    requires forall j :: 0 <= j < |s| && s[j].Used? ==>
               !Addresses(Context(Entries(s), nextId), SlotKey(s[j]), session, key, entryId)
    ensures forall k :: !Addresses(Context(Entries(s), nextId), k, session, key, entryId)
  {
    forall k | k in Entries(s)
      ensures !Addresses(Context(Entries(s), nextId), k, session, key, entryId)
    {
      var j := EntriesOnlyFromSlots(s, k);
    }
  }

  ghost predicate Misses(s: seq<Slot>, k: Key) {
    forall j :: 0 <= j < |s| && s[j].Used? ==> SlotKey(s[j]) != k
  }

  lemma MissesElsewhere(s: seq<Slot>, nextId: nat, i: nat, k: Key)
    requires WellFormed(s, nextId) && i < |s| && s[i].Used? && SlotKey(s[i]) == k
    ensures Misses(s[i := Free], k)
  {
  }

  lemma StoreRefused(s: seq<Slot>, nextId: nat, k: Key, value: seq<Byte>, ttl: nat, now: nat)
    requires WellFormed(s, nextId) && Misses(s, k) && !HasFree(s)
    ensures Stored(Context(Entries(s), nextId), |s|, k, value, ttl, now)
         == (Context(Entries(s), nextId), Err(OutOfMemory))
  {
    FullTable(s, nextId);
    if k in Entries(s) {
      var j := EntriesOnlyFromSlots(s, k);
    }
  }

  /** Writing the chosen slot is the map update. */
  lemma WriteWellFormed(s: seq<Slot>, nextId: nat, i: nat, k: Key, value: seq<Byte>, ttl: nat, now: nat)
    requires WellFormed(s, nextId) && i < |s| && |k.name| <= KEY_MAX - 1
    requires Misses(s[i := Free], k)
    ensures WellFormed(s[i := Used(nextId, k.session, k.name, value, now, ttl)], nextId + 1)
  {
    var t := s[i := Used(nextId, k.session, k.name, value, now, ttl)];
    assert forall j :: 0 <= j < |s| && j != i ==> s[i := Free][j] == s[j] == t[j];
  }

  /** Writing a slot that is free or holds the key updates the map at the key. */
  lemma WriteEntries(s: seq<Slot>, nextId: nat, i: nat, k: Key, r: Rec, t: seq<Slot>)
    requires WellFormed(s, nextId) && i < |s| && (s[i].Free? || SlotKey(s[i]) == k)
    requires t == s[i := Used(r.id, k.session, k.name, r.value, r.created, r.ttl)] && WellFormed(t, nextId + 1)
    ensures Entries(t) == Entries(s)[k := r]
  {
    EntriesAt(t, nextId + 1, i);
    forall q | q != k
      ensures q in Entries(s) <==> q in Entries(t)
      ensures q in Entries(s) ==> Entries(s)[q] == Entries(t)[q]
    {
      EntriesElsewhere(s, nextId, t, nextId + 1, i, q);
    }
  }

  /** The slot that is written is there to be written. */
  lemma RoomToWrite(s: seq<Slot>, nextId: nat, i: nat, k: Key)
    requires WellFormed(s, nextId) && i < |s| && (s[i].Free? || SlotKey(s[i]) == k)
    ensures k in Entries(s) || |Entries(s)| < |s|
  {
    if s[i].Used? {
      EntriesAt(s, nextId, i);
    } else {
      FullTable(s, nextId);
    }
  }

  lemma StoreWrites(s: seq<Slot>, nextId: nat, i: nat, k: Key, value: seq<Byte>, ttl: nat, now: nat)
    requires WellFormed(s, nextId) && i < |s| && |k.name| <= KEY_MAX - 1
    requires s[i].Free? || SlotKey(s[i]) == k
    requires Misses(s[i := Free], k)
    ensures var t := s[i := Used(nextId, k.session, k.name, value, now, ttl)];
            && WellFormed(t, nextId + 1)
            && Stored(Context(Entries(s), nextId), |s|, k, value, ttl, now)
            == (Context(Entries(t), nextId + 1), Ok(nextId))
  {
    var r := Rec(nextId, value, now, ttl);
    WriteWellFormed(s, nextId, i, k, value, ttl, now);
    WriteEntries(s, nextId, i, k, r, s[i := Used(nextId, k.session, k.name, value, now, ttl)]);
    RoomToWrite(s, nextId, i, k);
  }

  lemma EntryFreed(s: seq<Slot>, t: seq<Slot>, nextId: nat, i: nat)
    requires WellFormed(s, nextId) && i < |s| && s[i].Used?
    requires t == s[i := Free]
    ensures WellFormed(t, nextId)
    ensures Entries(t) == Entries(s) - {SlotKey(s[i])}
  {
    var k := SlotKey(s[i]);
    forall q | q != k { EntriesElsewhere(s, nextId, t, nextId, i, q); }
    if k in Entries(t) {
      var j := EntriesOnlyFromSlots(t, k);
    }
  }

  lemma UniqueAddress(s: seq<Slot>, nextId: nat, i: nat, session: nat, key: string, entryId: nat, room: nat, now: nat)
    requires WellFormed(s, nextId) && i < |s| && s[i].Used?
    requires Addresses(Context(Entries(s), nextId), SlotKey(s[i]), session, key, entryId)
    ensures Retrieved(Context(Entries(s), nextId), session, key, entryId, room, now)
         == Read(Context(Entries(s), nextId), SlotKey(s[i]), room, now)
  {
    EntriesValid(s, nextId);
    RetrievedAt(Context(Entries(s), nextId), SlotKey(s[i]), session, key, entryId, room, now);
  }

  lemma EntriesValid(s: seq<Slot>, nextId: nat)
    requires WellFormed(s, nextId)
    ensures Context(Entries(s), nextId).Valid()
  {
    var e := Entries(s);
    forall j, k | j in e && k in e && e[j].id == e[k].id
      ensures j == k
    {
      var x := EntriesOnlyFromSlots(s, j);
      var y := EntriesOnlyFromSlots(s, k);
    }
    forall k | k in e
      ensures 0 < e[k].id < nextId
    {
      var x := EntriesOnlyFromSlots(s, k);
    }
  }

  // ---------------------------------------------------------------- every history

  /** A request addresses at most one entry, and reads that one. */
  lemma RetrievedAt(c: Context, k: Key, session: nat, key: string, entryId: nat, room: nat, now: nat)
    requires c.Valid() && Addresses(c, k, session, key, entryId)
    ensures Retrieved(c, session, key, entryId, room, now) == Read(c, k, room, now)
  {
  }

  datatype Op =
    | Store(k: Key, value: seq<Byte>, ttl: nat)
    | Retrieve(session: nat, name: string, entryId: nat, room: nat)

  datatype Call = Call(op: Op, now: nat)

  ghost function Next(c: Context, capacity: nat, call: Call): Context {
    match call.op
    case Store(k, value, ttl) => Stored(c, capacity, k, value, ttl, call.now).0
    case Retrieve(session, name, entryId, room) => Retrieved(c, session, name, entryId, room, call.now).0
  }

  ghost function Run(c: Context, capacity: nat, calls: seq<Call>): Context
    decreases calls
  {
    if calls == [] then c else Run(Next(c, capacity, calls[0]), capacity, calls[1..])
  }

  /** From c to d at most the stored key changed, under the next id, and what disappeared had expired. */
  ghost predicate Effect(c: Context, d: Context, call: Call) {
    && d.Valid() && d.nextId >= c.nextId
    && (forall k :: k in d.entries ==>
          || (k in c.entries && d.entries[k] == c.entries[k])
          || (call.op.Store? && call.op.k == k && d.entries[k].id == c.nextId))
    && (forall k :: k in c.entries && k !in d.entries ==> Expired(c.entries[k], call.now))
  }

  lemma StoreEffect(c: Context, capacity: nat, call: Call)
    requires c.Valid() && call.op.Store?
    ensures Effect(c, Stored(c, capacity, call.op.k, call.op.value, call.op.ttl, call.now).0, call)
  {
  }

  lemma ReadEffect(c: Context, k: Key, room: nat, call: Call)
    requires c.Valid() && k in c.entries
    ensures Effect(c, Read(c, k, room, call.now).0, call)
  {
  }

  /** What one call can do to the table: keep an entry, delete an expired one, or write one
      key under the next id. */
  lemma NextEffect(c: Context, capacity: nat, call: Call)
    requires c.Valid()
    ensures Effect(c, Next(c, capacity, call), call)
  {
    match call.op
    case Store(_, _, _) => StoreEffect(c, capacity, call);
    case Retrieve(session, name, entryId, room) =>
      if k :| Addresses(c, k, session, name, entryId) {
        RetrievedAt(c, k, session, name, entryId, room, call.now);
        ReadEffect(c, k, room, call);
      }
  }

  ghost predicate Resolves(c: Context, id: nat) {
    exists k :: k in c.entries && c.entries[k].id == id
  }

  /** An id that was handed out and is no longer in the table never comes back. */
  lemma {:induction false} DeadIdStaysDead(c: Context, capacity: nat, calls: seq<Call>, id: nat)
    requires c.Valid() && 0 < id < c.nextId && !Resolves(c, id)
    decreases calls
    ensures var d := Run(c, capacity, calls);
            && d.Valid() && id < d.nextId && !Resolves(d, id)
            && forall session, name, room, now :: Retrieved(d, session, name, id, room, now) == (d, Err(InvalidParam))
  {
    if calls != [] {
      NextEffect(c, capacity, calls[0]);
      DeadIdStaysDead(Next(c, capacity, calls[0]), capacity, calls[1..], id);
    } else {
      forall session, name, room, now
        ensures Retrieved(c, session, name, id, room, now) == (c, Err(InvalidParam))
      {
      }
    }
  }

  /** Overwriting a key, or reading it after its TTL, kills its id for every later history. */
  lemma ReplacedIdNeverResolves(c: Context, capacity: nat, k: Key, value: seq<Byte>, ttl: nat, now: nat,
                                calls: seq<Call>)
    requires c.Valid() && k in c.entries
    ensures var d := Run(Stored(c, capacity, k, value, ttl, now).0, capacity, calls);
            forall session, name, room, later ::
              Retrieved(d, session, name, c.entries[k].id, room, later) == (d, Err(InvalidParam))
  {
    NextEffect(c, capacity, Call(Store(k, value, ttl), now));
    DeadIdStaysDead(Stored(c, capacity, k, value, ttl, now).0, capacity, calls, c.entries[k].id);
  }

  lemma ExpiredIdNeverResolves(c: Context, capacity: nat, k: Key, room: nat, now: nat, calls: seq<Call>)
    requires c.Valid() && k in c.entries && Expired(c.entries[k], now)
    ensures Read(c, k, room, now).1 == Err(Timeout)
    ensures var d := Run(Read(c, k, room, now).0, capacity, calls);
            forall session, name, space, later ::
              Retrieved(d, session, name, c.entries[k].id, space, later) == (d, Err(InvalidParam))
  {
    var e := Read(c, k, room, now).0;
    DeadIdStaysDead(e, capacity, calls, c.entries[k].id);
  }

  /** The calls leave key `k` alone and happen no later than `until`. */
  predicate Spares(calls: seq<Call>, k: Key, until: nat) {
    forall i :: 0 <= i < |calls| ==>
      calls[i].now <= until && !(calls[i].op.Store? && calls[i].op.k == k)
  }

  lemma {:induction false} LiveEntrySurvives(c: Context, capacity: nat, calls: seq<Call>, k: Key, until: nat)
    requires c.Valid() && k in c.entries && Spares(calls, k, until) && !Expired(c.entries[k], until)
    decreases calls
    ensures var d := Run(c, capacity, calls);
            d.Valid() && k in d.entries && d.entries[k] == c.entries[k]
  {
    if calls != [] {
      NextEffect(c, capacity, calls[0]);
      LiveEntrySurvives(Next(c, capacity, calls[0]), capacity, calls[1..], k, until);
    }
  }

  /** A stored value is what any later request reads, by id or by (session, key), whatever
      else happened to other keys, until its TTL runs out or its own key is stored again. */
  lemma StoredValueReadBack(c: Context, capacity: nat, session: nat, name: string, value: seq<Byte>, ttl: nat,
                            now: nat, calls: seq<Call>, later: nat, room: nat)
    requires c.Valid() && now <= later && (ttl == 0 || later - now < ttl) && room >= |value|
    requires Stored(c, capacity, Key(session, Strscpy(name)), value, ttl, now).1.Ok?
    requires Spares(calls, Key(session, Strscpy(name)), later)
    ensures var (d, r) := Stored(c, capacity, Key(session, Strscpy(name)), value, ttl, now);
            var e := Run(d, capacity, calls);
            && r.value == c.nextId
            && Retrieved(e, session, name, 0, room, later) == (e, Ok(value))
            && forall s, n :: Retrieved(e, s, n, r.value, room, later) == (e, Ok(value))
  {
    var k := Key(session, Strscpy(name));
    NextEffect(c, capacity, Call(Store(k, value, ttl), now));
    var d := Stored(c, capacity, k, value, ttl, now).0;
    LiveEntrySurvives(d, capacity, calls, k, later);
    var e := Run(d, capacity, calls);
    RetrievedAt(e, k, session, name, 0, room, later);
    forall s, n
      ensures Retrieved(e, s, n, c.nextId, room, later) == (e, Ok(value))
    {
      RetrievedAt(e, k, s, n, c.nextId, room, later);
    }
  }
}
