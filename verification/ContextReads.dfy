/** What a read of the context table answers after a store, in plain numbers. */
module ContextReads {
  import opened Wrappers
  import opened ContextTable

  /** Two names address one entry when they are equal or agree on their first 127 characters. */
  lemma NamesAlike(a: string, b: string)
    ensures Strscpy(a) == Strscpy(b) <==> a == b || (|a| >= 127 && |b| >= 127 && a[..127] == b[..127])
  {
  }

  predicate NeverStored(calls: seq<Call>, k: Key) {
    forall i :: 0 <= i < |calls| ==> !(calls[i].op.Store? && calls[i].op.k == k)
  }

  /** A key that is not stored again keeps its entry or loses it. */
  lemma {:induction false} KeptOrGone(c: Context, capacity: nat, calls: seq<Call>, k: Key)
    requires c.Valid() && k in c.entries && NeverStored(calls, k)
    decreases calls
    ensures k in Run(c, capacity, calls).entries ==> Run(c, capacity, calls).entries[k] == c.entries[k]
  {
    if calls != [] {
      var d := Next(c, capacity, calls[0]);
      NextEffect(c, capacity, calls[0]);
      if k in d.entries {
        KeptOrGone(d, capacity, calls[1..], k);
      } else {
        GoneStaysGone(d, capacity, calls[1..], k);
      }
    }
  }

  /** An entry with an old id is an old entry. */
  lemma {:induction false} RunOldIds(c: Context, capacity: nat, calls: seq<Call>)
    requires c.Valid()
    decreases calls
    ensures var d := Run(c, capacity, calls);
            && d.Valid() && d.nextId >= c.nextId
            && forall j :: j in d.entries && d.entries[j].id < c.nextId ==>
                 j in c.entries && d.entries[j] == c.entries[j]
  {
    if calls != [] {
      NextEffect(c, capacity, calls[0]);
      RunOldIds(Next(c, capacity, calls[0]), capacity, calls[1..]);
    }
  }

  lemma {:induction false} GoneStaysGone(c: Context, capacity: nat, calls: seq<Call>, k: Key)
    requires c.Valid() && k !in c.entries && NeverStored(calls, k)
    decreases calls
    ensures k !in Run(c, capacity, calls).entries
  {
    if calls != [] {
      NextEffect(c, capacity, calls[0]);
      GoneStaysGone(Next(c, capacity, calls[0]), capacity, calls[1..], k);
    }
  }

  /** No call before the time limit can remove the entry. */
  lemma {:induction false} KeptBeforeLimit(c: Context, capacity: nat, calls: seq<Call>, k: Key)
    requires c.Valid() && k in c.entries && NeverStored(calls, k)
    requires c.entries[k].ttl == 0 ||
             forall i :: 0 <= i < |calls| ==> calls[i].now < c.entries[k].created + c.entries[k].ttl
    decreases calls
    ensures k in Run(c, capacity, calls).entries
  {
    if calls != [] {
      NextEffect(c, capacity, calls[0]);
      KeptBeforeLimit(Next(c, capacity, calls[0]), capacity, calls[1..], k);
    }
  }

  /** The request names the entry that was stored under this name or id. */
  predicate Names(session: nat, name: string, id: nat, s: nat, n: string, entryId: nat) {
    entryId == id || (entryId == 0 && s == session && Strscpy(n) == Strscpy(name))
  }

  /** What the requests for one entry answer, when the table e still has it or not. */
  lemma ReadsOneEntry(e: Context, session: nat, name: string, id: nat, r: Rec, s: nat, n: string, entryId: nat,
                      room: nat, later: nat)
    requires e.Valid() && 0 < id < e.nextId && later >= r.created && r.id == id
    requires Names(session, name, id, s, n, entryId)
    requires var k := Key(session, Strscpy(name)); k in e.entries ==> e.entries[k] == r
    requires forall j :: j in e.entries && e.entries[j].id == id ==> j == Key(session, Strscpy(name))
    ensures var k, answer := Key(session, Strscpy(name)), Retrieved(e, s, n, entryId, room, later);
            && (k !in e.entries ==> answer == (e, Err(InvalidParam)))
            && (k in e.entries && r.ttl > 0 && later - r.created >= r.ttl ==>
                  answer == (Context(e.entries - {k}, e.nextId), Err(Timeout)))
            && (k in e.entries && (r.ttl == 0 || later - r.created < r.ttl) ==>
                  answer == (e, if room < |r.value| then Err(NoSpace) else Ok(r.value)))
  {
    var k := Key(session, Strscpy(name));
    if k in e.entries {
      RetrievedAt(e, k, s, n, entryId, room, later);
    }
  }

  /**
   * The law of reading back, for every request that names the entry by key or by id, after any calls
   * that do not store its key again: the value before the time limit, room permitting; from the limit
   * on a timeout that removes the entry; and nothing once it has been removed, which happens only
   * after the limit.
   */
  lemma ReadAfterStore(c: Context, capacity: nat, session: nat, name: string, value: seq<Byte>, ttl: nat, now: nat,
                       calls: seq<Call>, s: nat, n: string, entryId: nat, room: nat, later: nat)
    requires c.Valid() && now <= later
    requires Key(session, Strscpy(name)) in c.entries || |c.entries| < capacity
    requires NeverStored(calls, Key(session, Strscpy(name)))
    requires Names(session, name, c.nextId, s, n, entryId)
    ensures var k := Key(session, Strscpy(name));
            var e := Run(Stored(c, capacity, k, value, ttl, now).0, capacity, calls);
            var answer := Retrieved(e, s, n, entryId, room, later);
            && (k !in e.entries ==> answer == (e, Err(InvalidParam)))
            && (k in e.entries && ttl > 0 && later - now >= ttl ==>
                  answer == (Context(e.entries - {k}, e.nextId), Err(Timeout)))
            && (k in e.entries && (ttl == 0 || later - now < ttl) ==>
                  answer == (e, if room < |value| then Err(NoSpace) else Ok(value)))
            && (ttl == 0 || (forall i :: 0 <= i < |calls| ==> calls[i].now < now + ttl) ==> k in e.entries)
  {
    var k := Key(session, Strscpy(name));
    var d := Stored(c, capacity, k, value, ttl, now).0;
    NextEffect(c, capacity, Call(Store(k, value, ttl), now));
    assert d.entries[k] == Rec(c.nextId, value, now, ttl);
    KeptOrGone(d, capacity, calls, k);
    RunOldIds(d, capacity, calls);
    if ttl == 0 || forall i :: 0 <= i < |calls| ==> calls[i].now < now + ttl {
      KeptBeforeLimit(d, capacity, calls, k);
    }
    ReadsOneEntry(Run(d, capacity, calls), session, name, c.nextId, d.entries[k], s, n, entryId, room, later);
  }
}
