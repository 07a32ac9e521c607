/** The event bus of the plugin runtime as a class, with synchronous delivery. */
module EventBus {
  import opened StableSort
  import opened Events

  // ---------------------------------------------------------------- dropping subscriptions

  lemma {:induction false} FilterAgree(s: seq<Entry>, p: Subscription -> bool, q: Subscription -> bool)
    requires forall x :: x in s ==> p(x.item) == q(x.item)
    ensures Filter(s, p) == Filter(s, q)
  {
    if s != [] {
      assert s[|s| - 1] in s;
      FilterAgree(s[..|s| - 1], p, q);
    }
  }

  lemma {:induction false} FilterAll(s: seq<Entry>, p: Subscription -> bool)
    requires forall x :: x in s ==> p(x.item)
    ensures Filter(s, p) == s
  {
    if s != [] {
      assert s[|s| - 1] in s;
      FilterAll(s[..|s| - 1], p);
    }
  }

  lemma {:induction false} FilterPop(s: seq<Entry>, p: Subscription -> bool, i: nat)
    requires i < |s| && !p(s[i].item)
    requires forall j :: 0 <= j < |s| && j != i ==> p(s[j].item)
    ensures Filter(s, p) == s[..i] + s[i + 1..]
  {
    var front, last := s[..|s| - 1], s[|s| - 1];
    if i < |s| - 1 {
      FilterPop(front, p, i);
      assert s[i + 1..] == front[i + 1..] + [last];
    } else {
      FilterAll(front, p);
    }
  }

  lemma {:induction false} FilterTwice(s: seq<Entry>, p: Subscription -> bool, q: Subscription -> bool,
                                       r: Subscription -> bool)
    requires forall x :: r(x) <==> p(x) && q(x)
    ensures Filter(Filter(s, p), q) == Filter(s, r)
  {
    if s != [] {
      var front, last := s[..|s| - 1], s[|s| - 1];
      FilterTwice(front, p, q, r);
      assert Filter(front, p) + [] == Filter(front, p);
      FilterAppend(Filter(front, p), last, q);
    }
  }

  lemma KeepTwice(b: Bus, p: Subscription -> bool, q: Subscription -> bool, r: Subscription -> bool)
    requires forall x :: r(x) <==> p(x) && q(x)
    ensures Keep(Keep(b, p), q) == Keep(b, r)
  {
    FilterTwice(b.wild, p, q, r);
    forall k | k in b.named ensures Filter(Filter(b.named[k], p), q) == Filter(b.named[k], r) {
      FilterTwice(b.named[k], p, q, r);
    }
  }

  lemma KeepAgree(b: Bus, p: Subscription -> bool, q: Subscription -> bool)
    requires Valid(b)
    requires forall x :: Live(b, x) ==> p(x.item) == q(x.item)
    ensures Keep(b, p) == Keep(b, q)
  {
    FilterAgree(b.wild, p, q);
    forall k | k in b.named ensures Filter(b.named[k], p) == Filter(b.named[k], q) {
      NamedValid(b, k);
      assert forall x :: x in b.named[k] ==> Live(b, x);
      FilterAgree(b.named[k], p, q);
    }
  }

  lemma KeepAll(b: Bus, p: Subscription -> bool)
    requires Valid(b)
    requires forall x :: Live(b, x) ==> p(x.item)
    ensures Keep(b, p) == b
  {
    FilterAll(b.wild, p);
    forall k | k in b.named ensures Filter(b.named[k], p) == b.named[k] {
      NamedValid(b, k);
      assert forall x :: x in b.named[k] ==> Live(b, x);
      FilterAll(b.named[k], p);
    }
  }

  lemma ListIdsDistinct(b: Bus, s: seq<Entry>, i: nat, j: nat)
    requires Valid(b) && Ordered(s) && (forall x :: x in s ==> Live(b, x))
    requires i < |s| && j < |s| && i != j
    ensures s[i].item.id != s[j].item.id
  {
    assert s[i] in s && s[j] in s;
  }

  /** A list without a live entry has no entry with its id. */
  lemma IdNotHere(b: Bus, s: seq<Entry>, x: Entry)
    requires Valid(b) && Live(b, x) && x !in s && forall y :: y in s ==> Live(b, y)
    ensures Filter(s, NotId(x.item.id)) == s
  {
    forall y | y in s ensures y.item.id != x.item.id {
      assert Live(b, y);
    }
    FilterAll(s, NotId(x.item.id));
  }

  lemma PopList(b: Bus, s: seq<Entry>, i: nat)
    requires Valid(b) && Ordered(s) && (forall x :: x in s ==> Live(b, x)) && i < |s|
    ensures Filter(s, NotId(s[i].item.id)) == s[..i] + s[i + 1..]
  {
    forall j | 0 <= j < |s| && j != i ensures s[j].item.id != s[i].item.id {
      ListIdsDistinct(b, s, i, j);
    }
    FilterPop(s, NotId(s[i].item.id), i);
  }

  lemma OtherKind(b: Bus, x: Entry, j: string)
    requires Valid(b) && Live(b, x) && j in b.named && j != x.item.kind
    ensures Filter(b.named[j], NotId(x.item.id)) == b.named[j]
  {
    NamedValid(b, j);
    assert forall y :: y in b.named[j] ==> Live(b, y);
    IdNotHere(b, b.named[j], x);
  }

  /** Popping a subscription from its list removes exactly the one with that id. */
  lemma PopNamed(b: Bus, k: string, i: nat)
    requires Valid(b) && k in b.named && i < |b.named[k]|
    ensures var s := b.named[k];
            Keep(b, NotId(s[i].item.id)) == b.(named := b.named[k := s[..i] + s[i + 1..]])
  {
    NamedValid(b, k);
    var s := b.named[k];
    var x := s[i];
    assert x in s && forall y :: y in s ==> Live(b, y);
    PopList(b, s, i);
    IdNotHere(b, b.wild, x);
    forall j | j in b.named && j != k ensures Filter(b.named[j], NotId(x.item.id)) == b.named[j] {
      OtherKind(b, x, j);
    }
    OneListChanges(b, NotId(x.item.id), k, s[..i] + s[i + 1..]);
  }

  lemma OneListChanges(b: Bus, keep: Subscription -> bool, k: string, s: seq<Entry>)
    requires k in b.named && Filter(b.named[k], keep) == s && Filter(b.wild, keep) == b.wild
    requires forall j :: j in b.named && j != k ==> Filter(b.named[j], keep) == b.named[j]
    ensures Keep(b, keep) == b.(named := b.named[k := s])
  {
  }

  lemma PopWild(b: Bus, i: nat)
    requires Valid(b) && i < |b.wild|
    ensures Keep(b, NotId(b.wild[i].item.id)) == b.(wild := b.wild[..i] + b.wild[i + 1..])
  {
    var x := b.wild[i];
    assert x in b.wild;
    PopList(b, b.wild, i);
    forall j | j in b.named ensures Filter(b.named[j], NotId(x.item.id)) == b.named[j] {
      OtherKind(b, x, j);
    }
  }

  /** The lists while those of the types in `todo` still have to be filtered. */
  function Narrowed(named: map<string, seq<Entry>>, todo: set<string>, keep: Subscription -> bool)
    : map<string, seq<Entry>>
  {
    map k | k in named && (k in todo || Filter(named[k], keep) != []) ::
      if k in todo then named[k] else Filter(named[k], keep)
  }

  lemma NarrowStep(named: map<string, seq<Entry>>, todo: set<string>, keep: Subscription -> bool, k: string)
    requires k in todo && todo <= named.Keys
    ensures var m, left := Narrowed(named, todo, keep), Filter(named[k], keep);
            && k in m && m[k] == named[k]
            && Narrowed(named, todo - {k}, keep) == if left == [] then m - {k} else m[k := left]
  {
  }

  lemma NarrowEnds(b: Bus, keep: Subscription -> bool)
    ensures Narrowed(b.named, b.named.Keys, keep) == b.named
    ensures Narrowed(b.named, {}, keep) == Tidy(Keep(b, keep)).named
  {
  }

  function NotAmong(ids: set<nat>): Subscription -> bool {
    (s: Subscription) => s.id !in ids
  }

  function IsOnce(): Subscription -> bool {
    (s: Subscription) => s.once
  }

  function Ids(s: seq<Entry>): set<nat> {
    set x | x in s :: x.item.id
  }

  /** Dropping the one-shot subscriptions of the queue by id is dropping those the event concerns. */
  lemma OnceByIds(b: Bus, kind: string)
    requires Valid(b)
    ensures Keep(b, NotAmong(Ids(Filter(Queue(b, kind), IsOnce())))) == Keep(b, StaysAfter(kind))
  {
    var once := Filter(Queue(b, kind), IsOnce());
    forall x | Live(b, x)
      ensures NotAmong(Ids(once))(x.item) == StaysAfter(kind)(x.item)
    {
      QueueMembers(b, kind, x);
      FilterMembers(Queue(b, kind), IsOnce(), x);
      if x.item.id in Ids(once) {
        var y :| y in once && y.item.id == x.item.id;
        QueueMembers(b, kind, y);
        FilterMembers(Queue(b, kind), IsOnce(), y);
      }
    }
    KeepAgree(b, NotAmong(Ids(once)), StaysAfter(kind));
  }

  /** Once a filter has raised nothing further happens. */
  lemma {:induction false} AbortSticks(queue: seq<Entry>, i: nat, e: Event, w: Behaviour)
    requires i <= |queue| && Deliver(queue[..i], e, w).aborted
    ensures Deliver(queue, e, w) == Deliver(queue[..i], e, w)
  {
    if i == |queue| {
      assert queue[..i] == queue;
    } else {
      assert queue[..|queue| - 1][..i] == queue[..i];
      AbortSticks(queue[..|queue| - 1], i, e, w);
    }
  }

  // ---------------------------------------------------------------- the class

  class EventBus {
    var subscriptions: map<string, seq<Entry>>
    var wildcardSubscriptions: seq<Entry>
    var published: nat
    var delivered: nat
    var dropped: nat
    var errors: nat
    var nextId: nat

    function State(): Bus
      reads this
    {
      Bus(subscriptions, wildcardSubscriptions, published, delivered, dropped, errors, nextId)
    }

    constructor ()
      ensures State() == EMPTY && Valid(State())
    {
      subscriptions, wildcardSubscriptions := map[], [];
      published, delivered, dropped, errors, nextId := 0, 0, 0, 0, 0;
    }

    method Subscribe(kind: string, priority: int, plugin: string, callback: nat, filtered: bool, once: bool)
      returns (id: nat)
      requires Valid(State())
      modifies this
      ensures id == old(nextId)
      ensures State() == Subscribed(old(State()), priority, Subscription(id, kind, plugin, callback, filtered, once))
      ensures Valid(State())
    {
      id := nextId;
      var sub := Subscription(id, kind, plugin, callback, filtered, once);
      SubscribeValid(State(), priority, sub);
      nextId := nextId + 1;
      if kind == WILDCARD {
        wildcardSubscriptions := wildcardSubscriptions + [Ranked(priority, sub)];
        wildcardSubscriptions := Sort(wildcardSubscriptions);
      } else {
        var subs := if kind in subscriptions then subscriptions[kind] else [];
        subs := subs + [Ranked(priority, sub)];
        subscriptions := subscriptions[kind := Sort(subs)];
      }
    }

    method Unsubscribe(id: nat) returns (found: bool)
      requires Valid(State())
      modifies this`subscriptions, this`wildcardSubscriptions
      ensures State() == Keep(old(State()), NotId(id)) && Valid(State())
      ensures found <==> exists x :: Live(old(State()), x) && x.item.id == id
    {
      ghost var before := State();
      KeepValid(before, NotId(id));
      found := UnsubscribeNamed(id);
      if found {
        return;
      }
      var i := IndexOf(wildcardSubscriptions, id);
      if i < |wildcardSubscriptions| {
        PopWild(before, i);
        assert wildcardSubscriptions[i] in before.wild;
        wildcardSubscriptions := wildcardSubscriptions[..i] + wildcardSubscriptions[i + 1..];
        return true;
      }
      KeepAll(before, NotId(id));
    }

    /** The loop over the lists of the event types. */
    method UnsubscribeNamed(id: nat) returns (found: bool)
      requires Valid(State())
      modifies this`subscriptions
      ensures found ==> State() == Keep(old(State()), NotId(id)) && exists x :: Live(old(State()), x) && x.item.id == id
      ensures !found ==>
                State() == old(State())
                && forall k :: k in subscriptions ==> forall x :: x in subscriptions[k] ==> x.item.id != id
    {
      ghost var before := State();
      var kinds := subscriptions.Keys;
      while kinds != {}
        invariant kinds <= subscriptions.Keys && State() == before
        invariant forall k :: k in subscriptions && k !in kinds ==>
                    forall x :: x in subscriptions[k] ==> x.item.id != id
        decreases |kinds|
      {
        var k :| k in kinds;
        var subs := subscriptions[k];
        var i := IndexOf(subs, id);
        if i < |subs| {
          PopNamed(before, k, i);
          NamedValid(before, k);
          assert subs[i] in subs;
          subscriptions := subscriptions[k := subs[..i] + subs[i + 1..]];
          return true;
        }
        kinds := kinds - {k};
      }
      return false;
    }

    method UnsubscribePlugin(plugin: string)
      requires Valid(State())
      modifies this`subscriptions, this`wildcardSubscriptions
      ensures State() == Tidy(Keep(old(State()), NotPlugin(plugin))) && Valid(State())
    {
      ghost var before := State();
      KeepValid(before, NotPlugin(plugin));
      TidyValid(Keep(before, NotPlugin(plugin)));
      var kinds := subscriptions.Keys;
      NarrowEnds(before, NotPlugin(plugin));
      while kinds != {}
        invariant kinds <= before.named.Keys
        invariant subscriptions == Narrowed(before.named, kinds, NotPlugin(plugin))
        invariant State() == before.(named := subscriptions)
        decreases |kinds|
      {
        var k :| k in kinds;
        NarrowStep(before.named, kinds, NotPlugin(plugin), k);
        var left := Filter(subscriptions[k], NotPlugin(plugin));
        if left == [] {
          subscriptions := subscriptions - {k};
        } else {
          subscriptions := subscriptions[k := left];
        }
        kinds := kinds - {k};
      }
      wildcardSubscriptions := Filter(wildcardSubscriptions, NotPlugin(plugin));
    }

    /** `publish` in the publisher's thread: the callbacks called, and whether a filter raised. */
    method Publish(e: Event, expired: bool, w: Behaviour) returns (fired: seq<Entry>, raised: bool)
      requires Valid(State())
      modifies this
      ensures State() == Published(old(State()), e, expired, w) && Valid(State())
      ensures published == old(published) + (if expired then 0 else 1)
      ensures dropped == old(dropped) + (if expired then 1 else 0)
      ensures expired ==> fired == [] && !raised
      ensures !expired ==> Delivery(fired, raised) == Deliver(Queue(old(State()), e.kind), e, w)
    {
      ghost var before := State();
      if expired {
        dropped := dropped + 1;
        DroppedValid(before);
        assert State() == Dropped(before);
        return [], false;
      }
      published := published + 1;
      AnnouncedValid(before, e.kind);
      assert State() == Announced(before);
      fired, raised := DeliverTo(e, w);
    }

    method DeliverTo(e: Event, w: Behaviour) returns (fired: seq<Entry>, raised: bool)
      requires Valid(State())
      modifies this
      ensures State() == Delivered(old(State()), e, w) && Valid(State())
      ensures Delivery(fired, raised) == Deliver(Queue(old(State()), e.kind), e, w)
    {
      ghost var before := State();
      DeliveredValid(before, e, w);
      var subs := if e.kind in subscriptions then subscriptions[e.kind] else [];
      var queue := Sort(subs + wildcardSubscriptions);
      var once := Filter(queue, IsOnce());
      fired, raised := CallAll(queue, e, w);
      if raised {
        return;
      }
      ghost var c := State();
      SameLists(before, c);
      assert Queue(c, e.kind) == queue;
      OnceByIds(c, e.kind);
      RemoveAll(once);
    }

    /** The delivery loop. */
    method CallAll(queue: seq<Entry>, e: Event, w: Behaviour) returns (fired: seq<Entry>, raised: bool)
      modifies this`delivered, this`errors
      ensures Delivery(fired, raised) == Deliver(queue, e, w)
      ensures State() == Counted(old(State()), fired, e, w)
    {
      fired := [];
      for i := 0 to |queue|
        invariant Deliver(queue[..i], e, w) == Delivery(fired, false)
        invariant State() == Counted(old(State()), fired, e, w)
      {
        var sub := queue[i];
        assert queue[..i + 1][..i] == queue[..i];
        var m := Matches(sub.item, e, w);
        if m == Raise {
          AbortSticks(queue, i + 1, e, w);
          return fired, true;
        }
        if m == Accept {
          FilterAppend(fired, sub, Succeeds(e, w));
          FilterAppend(fired, sub, Fails(e, w));
          fired := fired + [sub];
          if w.fails(sub.item, e) {
            errors := errors + 1;
          } else {
            delivered := delivered + 1;
          }
        }
      }
      assert queue[..|queue|] == queue;
      return fired, false;
    }

    /** Unsubscribes the one-shot subscriptions that were queued. */
    method RemoveAll(once: seq<Entry>)
      requires Valid(State())
      modifies this`subscriptions, this`wildcardSubscriptions
      ensures State() == Keep(old(State()), NotAmong(Ids(once)))
    {
      ghost var c := State();
      assert Ids(once[..0]) == {};
      KeepAll(c, NotAmong({}));
      for i := 0 to |once|
        invariant Valid(State()) && State() == Keep(c, NotAmong(Ids(once[..i])))
      {
        KeepTwice(c, NotAmong(Ids(once[..i])), NotId(once[i].item.id), NotAmong(Ids(once[..i + 1])));
        var _ := Unsubscribe(once[i].item.id);
      }
      assert once[..|once|] == once;
    }
  }

  /** The position of the first subscription with this id, or the length of the list. */
  method IndexOf(subs: seq<Entry>, id: nat) returns (i: nat)
    ensures i <= |subs| && (i < |subs| ==> subs[i].item.id == id)
    ensures forall j :: 0 <= j < i ==> subs[j].item.id != id
  {
    i := 0;
    while i < |subs| && subs[i].item.id != id
      invariant i <= |subs| && forall j :: 0 <= j < i ==> subs[j].item.id != id
    {
      i := i + 1;
    }
  }
}
