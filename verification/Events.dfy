/** Subscriptions and delivery on the event bus of the plugin runtime, on values. */
module Events {
  import opened StableSort

  datatype Event = Event(kind: string, payload: nat)

  /** `id` stands for the uuid: subscriptions are numbered in the order in which they are made. */
  datatype Subscription = Subscription(id: nat, kind: string, plugin: string, callback: nat, filtered: bool, once: bool)

  type Entry = Ranked<Subscription>

  datatype Check = Accept | Reject | Raise

  /** How filters and callbacks behave during one publish. */
  datatype Behaviour = Behaviour(filter: (Subscription, Event) -> Check, fails: (Subscription, Event) -> bool)

  const WILDCARD := "*"

  datatype Bus = Bus(
    named: map<string, seq<Entry>>,
    wild: seq<Entry>,
    published: nat,
    delivered: nat,
    dropped: nat,
    errors: nat,
    nextId: nat)

  const EMPTY := Bus(map[], [], 0, 0, 0, 0, 0)

  // ---------------------------------------------------------------- operations on values

  function Named(b: Bus, kind: string): seq<Entry> {
    if kind in b.named then b.named[kind] else []
  }

  function Subscribed(b: Bus, priority: int, s: Subscription): Bus {
    var x := Ranked(priority, s);
    var c := b.(nextId := b.nextId + 1);
    if s.kind == WILDCARD then c.(wild := Sort(b.wild + [x]))
    else c.(named := b.named[s.kind := Sort(Named(b, s.kind) + [x])])
  }

  /** Only the kept subscriptions remain. */
  function Keep(b: Bus, keep: Subscription -> bool): Bus {
    b.(named := map k | k in b.named :: Filter(b.named[k], keep), wild := Filter(b.wild, keep))
  }

  /** Types without subscriptions are forgotten. */
  function Tidy(b: Bus): Bus {
    b.(named := map k | k in b.named && b.named[k] != [] :: b.named[k])
  }

  function NotId(id: nat): Subscription -> bool {
    (s: Subscription) => s.id != id
  }

  function NotPlugin(plugin: string): Subscription -> bool {
    (s: Subscription) => s.plugin != plugin
  }

  predicate Concerns(s: Subscription, kind: string) {
    s.kind == kind || s.kind == WILDCARD
  }

  /** What a publish of this type leaves subscribed. */
  function StaysAfter(kind: string): Subscription -> bool {
    (s: Subscription) => !(s.once && Concerns(s, kind))
  }

  /** The subscriptions to serve, by priority. */
  function Queue(b: Bus, kind: string): seq<Entry> {
    Sort(Named(b, kind) + b.wild)
  }

  function Matches(s: Subscription, e: Event, w: Behaviour): Check {
    if !Concerns(s, e.kind) then Reject else if s.filtered then w.filter(s, e) else Accept
  }

  /** The callbacks called, and whether a filter raised an exception. */
  datatype Delivery = Delivery(fired: seq<Entry>, aborted: bool)

  function Deliver(queue: seq<Entry>, e: Event, w: Behaviour): Delivery {
    if queue == [] then Delivery([], false)
    else
      var d, last := Deliver(queue[..|queue| - 1], e, w), queue[|queue| - 1];
      if d.aborted then d
      else match Matches(last.item, e, w)
        case Accept => Delivery(d.fired + [last], false)
        case Reject => d
        case Raise => Delivery(d.fired, true)
  }

  function Succeeds(e: Event, w: Behaviour): Subscription -> bool {
    (s: Subscription) => !w.fails(s, e)
  }

  function Fails(e: Event, w: Behaviour): Subscription -> bool {
    (s: Subscription) => w.fails(s, e)
  }

  /** The counters after the callbacks. */
  function Counted(b: Bus, fired: seq<Entry>, e: Event, w: Behaviour): Bus {
    b.(delivered := b.delivered + |Filter(fired, Succeeds(e, w))|, errors := b.errors + |Filter(fired, Fails(e, w))|)
  }

  /** `_deliver`; one-shot subscriptions are removed at its end. */
  function Delivered(b: Bus, e: Event, w: Behaviour): Bus {
    var d := Deliver(Queue(b, e.kind), e, w);
    var c := Counted(b, d.fired, e, w);
    if d.aborted then c else Keep(c, StaysAfter(e.kind))
  }

  function Dropped(b: Bus): Bus {
    b.(dropped := b.dropped + 1)
  }

  function Announced(b: Bus): Bus {
    b.(published := b.published + 1)
  }

  function Published(b: Bus, e: Event, expired: bool, w: Behaviour): Bus {
    if expired then Dropped(b) else Delivered(Announced(b), e, w)
  }

  // ---------------------------------------------------------------- what always holds

  ghost predicate Live(b: Bus, x: Entry) {
    x in b.wild || (x.item.kind in b.named && x in b.named[x.item.kind])
  }

  /** By priority, then by age. */
  ghost predicate Ordered(s: seq<Entry>) {
    forall i, j :: 0 <= i < j < |s| ==>
      s[i].rank < s[j].rank || (s[i].rank == s[j].rank && s[i].item.id < s[j].item.id)
  }

  ghost predicate OfKind(s: seq<Entry>, kind: string, nextId: nat) {
    forall x :: x in s ==> x.item.kind == kind && x.item.id < nextId
  }

  ghost predicate Valid(b: Bus) {
    && WILDCARD !in b.named
    && Ordered(b.wild) && OfKind(b.wild, WILDCARD, b.nextId)
    && (forall k :: k in b.named ==> Ordered(b.named[k]) && OfKind(b.named[k], k, b.nextId))
    && UniqueIds(b)
  }

  ghost predicate UniqueIds(b: Bus) {
    forall x, y :: Live(b, x) && Live(b, y) && x.item.id == y.item.id ==> x == y
  }

  lemma NamedValid(b: Bus, kind: string)
    requires Valid(b)
    ensures Ordered(Named(b, kind)) && OfKind(Named(b, kind), kind, b.nextId)
    ensures kind == WILDCARD ==> Named(b, kind) == []
    ensures forall x :: x in Named(b, kind) ==> Live(b, x)
  {
  }

  /** A new, youngest entry goes to its place without disturbing the order. */
  lemma SortedIn(s: seq<Entry>, x: Entry, kind: string)
    requires Ordered(s) && OfKind(s, kind, x.item.id) && x.item.kind == kind
    ensures Ordered(Sort(s + [x])) && OfKind(Sort(s + [x]), kind, x.item.id + 1)
    ensures forall y :: y in Sort(s + [x]) <==> y in s || y == x
  {
    var t := s + [x];
    var age := (a: Subscription, b: Subscription) => a.id < b.id;
    forall i | 0 <= i < |s| ensures s[i].item.id < x.item.id {
      assert s[i] in s;
    }
    assert Tied(t, age);
    SortTied(t, age);
    SortIsStable(t);
    forall y ensures y in Sort(t) <==> y in s || y == x {
      SortMembers(t, y);
    }
  }

  lemma {:induction false} KeptOrdered(s: seq<Entry>, keep: Subscription -> bool)
    requires Ordered(s)
    ensures Ordered(Filter(s, keep))
    ensures forall y :: y in Filter(s, keep) <==> y in s && keep(y.item)
  {
    if s != [] {
      var front, last := s[..|s| - 1], s[|s| - 1];
      KeptOrdered(front, keep);
      assert s == front + [last];
      var f := Filter(front, keep);
      forall i | 0 <= i < |f| ensures exists j :: 0 <= j < |front| && front[j] == f[i] {
        assert f[i] in f;
      }
    }
  }

  lemma SubscribeLive(b: Bus, priority: int, s: Subscription, y: Entry)
    requires Valid(b) && s.id == b.nextId
    ensures Live(Subscribed(b, priority, s), y) <==> Live(b, y) || y == Ranked(priority, s)
  {
    SortMembers(b.wild + [Ranked(priority, s)], y);
    SortMembers(Named(b, s.kind) + [Ranked(priority, s)], y);
  }

  lemma LiveIsOlder(b: Bus, y: Entry)
    requires Valid(b) && Live(b, y)
    ensures y.item.id < b.nextId
  {
  }

  lemma SubscribeLists(b: Bus, priority: int, s: Subscription)
    requires Valid(b) && s.id == b.nextId
    ensures var c := Subscribed(b, priority, s);
            && WILDCARD !in c.named
            && Ordered(c.wild) && OfKind(c.wild, WILDCARD, c.nextId)
            && (forall k :: k in c.named ==> Ordered(c.named[k]) && OfKind(c.named[k], k, c.nextId))
  {
    NamedValid(b, s.kind);
    if s.kind == WILDCARD {
      SortedIn(b.wild, Ranked(priority, s), s.kind);
    } else {
      SortedIn(Named(b, s.kind), Ranked(priority, s), s.kind);
    }
  }

  lemma SubscribeValid(b: Bus, priority: int, s: Subscription)
    requires Valid(b) && s.id == b.nextId
    ensures var c := Subscribed(b, priority, s);
            && Valid(c)
            && forall y :: Live(c, y) <==> Live(b, y) || y == Ranked(priority, s)
  {
    SubscribeLists(b, priority, s);
    var c := Subscribed(b, priority, s);
    forall y ensures Live(c, y) <==> Live(b, y) || y == Ranked(priority, s) {
      SubscribeLive(b, priority, s, y);
    }
    forall x, y | Live(c, x) && Live(c, y) && x.item.id == y.item.id ensures x == y {
      if Live(b, x) {
        LiveIsOlder(b, x);
      }
      if Live(b, y) {
        LiveIsOlder(b, y);
      }
    }
  }

  lemma KeepValid(b: Bus, keep: Subscription -> bool)
    requires Valid(b)
    ensures Valid(Keep(b, keep))
    ensures forall y :: Live(Keep(b, keep), y) <==> Live(b, y) && keep(y.item)
  {
    KeptOrdered(b.wild, keep);
    forall k | k in b.named
      ensures Ordered(Filter(b.named[k], keep))
      ensures forall y :: y in Filter(b.named[k], keep) <==> y in b.named[k] && keep(y.item)
    {
      KeptOrdered(b.named[k], keep);
    }
  }

  lemma TidyValid(b: Bus)
    requires Valid(b)
    ensures Valid(Tidy(b))
    ensures forall y :: Live(Tidy(b), y) <==> Live(b, y)
  {
  }

  lemma DeliveredValid(b: Bus, e: Event, w: Behaviour)
    requires Valid(b)
    ensures Valid(Delivered(b, e, w))
  {
    var c := Counted(b, Deliver(Queue(b, e.kind), e, w).fired, e, w);
    SameLists(b, c);
    KeepValid(c, StaysAfter(e.kind));
  }

  lemma AnnouncedValid(b: Bus, kind: string)
    requires Valid(b)
    ensures Valid(Announced(b)) && Queue(Announced(b), kind) == Queue(b, kind)
  {
    SameLists(b, Announced(b));
  }

  lemma DroppedValid(b: Bus)
    requires Valid(b)
    ensures Valid(Dropped(b))
  {
    SameLists(b, Dropped(b));
  }

  lemma PublishValid(b: Bus, e: Event, expired: bool, w: Behaviour)
    requires Valid(b)
    ensures Valid(Published(b, e, expired, w))
  {
    if expired {
      DroppedValid(b);
    } else {
      AnnouncedValid(b, e.kind);
      DeliveredValid(Announced(b), e, w);
    }
  }

  lemma SameLists(b: Bus, c: Bus)
    requires b.named == c.named && b.wild == c.wild && b.nextId == c.nextId
    ensures Valid(b) ==> Valid(c)
    ensures forall x :: Live(b, x) <==> Live(c, x)
  {
    assert forall x :: Live(b, x) <==> Live(c, x);
  }

  // ---------------------------------------------------------------- the order of delivery

  /** Named subscriptions first, then older ones. */
  predicate Earlier(a: Subscription, b: Subscription) {
    if (a.kind == WILDCARD) == (b.kind == WILDCARD) then a.id < b.id else b.kind == WILDCARD
  }

  ghost predicate InTurn(s: seq<Entry>) {
    forall i, j :: 0 <= i < j < |s| ==>
      s[i].rank < s[j].rank || (s[i].rank == s[j].rank && Earlier(s[i].item, s[j].item))
  }

  lemma QueueMembers(b: Bus, kind: string, y: Entry)
    requires Valid(b)
    ensures y in Queue(b, kind) <==> Live(b, y) && Concerns(y.item, kind)
  {
    NamedValid(b, kind);
    SortMembers(Named(b, kind) + b.wild, y);
  }

  lemma QueueInTurn(b: Bus, kind: string)
    requires Valid(b)
    ensures InTurn(Queue(b, kind))
  {
    NamedValid(b, kind);
    var n, all := Named(b, kind), Named(b, kind) + b.wild;
    assert forall i :: 0 <= i < |n| ==> n[i] in n;
    assert forall i :: 0 <= i < |b.wild| ==> b.wild[i] in b.wild;
    assert Tied(all, Earlier);
    SortTied(all, Earlier);
    SortIsStable(all);
  }

  lemma {:induction false} FiredMembers(queue: seq<Entry>, e: Event, w: Behaviour, y: Entry)
    ensures y in Deliver(queue, e, w).fired ==> y in queue && Matches(y.item, e, w) == Accept
    ensures !Deliver(queue, e, w).aborted && y in queue && Matches(y.item, e, w) == Accept ==>
              y in Deliver(queue, e, w).fired
  {
    if queue != [] {
      FiredMembers(queue[..|queue| - 1], e, w, y);
      assert queue == queue[..|queue| - 1] + [queue[|queue| - 1]];
    }
  }

  lemma {:induction false} AbortedIffRaised(queue: seq<Entry>, e: Event, w: Behaviour)
    ensures Deliver(queue, e, w).aborted <==> exists y :: y in queue && Matches(y.item, e, w) == Raise
  {
    if queue != [] {
      AbortedIffRaised(queue[..|queue| - 1], e, w);
      assert queue == queue[..|queue| - 1] + [queue[|queue| - 1]];
    }
  }

  lemma {:induction false} FiredInTurn(queue: seq<Entry>, e: Event, w: Behaviour)
    requires InTurn(queue)
    ensures InTurn(Deliver(queue, e, w).fired)
  {
    if queue != [] {
      var front, last := queue[..|queue| - 1], queue[|queue| - 1];
      FiredInTurn(front, e, w);
      var f := Deliver(front, e, w).fired;
      forall i | 0 <= i < |f| ensures exists j :: 0 <= j < |front| && front[j] == f[i] {
        FiredMembers(front, e, w, f[i]);
      }
    }
  }

  /**
   * One publish calls callbacks by priority, named before wildcard, older before younger; unless a
   * filter raises, it calls exactly those of the live subscriptions that concern the event and accept it.
   */
  lemma DeliveryOrder(b: Bus, e: Event, w: Behaviour)
    requires Valid(b)
    ensures var d := Deliver(Queue(b, e.kind), e, w);
            && InTurn(d.fired)
            && (d.aborted <==> exists y :: Live(b, y) && Matches(y.item, e, w) == Raise)
            && (!d.aborted ==> forall y :: y in d.fired <==> Live(b, y) && Matches(y.item, e, w) == Accept)
            && (forall y :: y in d.fired ==> Live(b, y) && Matches(y.item, e, w) == Accept)
  {
    QueueInTurn(b, e.kind);
    FiredInTurn(Queue(b, e.kind), e, w);
    AbortedIffRaised(Queue(b, e.kind), e, w);
    forall y
      ensures y in Queue(b, e.kind) <==> Live(b, y) && Concerns(y.item, e.kind)
      ensures var d := Deliver(Queue(b, e.kind), e, w);
              && (y in d.fired ==> y in Queue(b, e.kind) && Matches(y.item, e, w) == Accept)
              && (!d.aborted && y in Queue(b, e.kind) && Matches(y.item, e, w) == Accept ==> y in d.fired)
    {
      QueueMembers(b, e.kind, y);
      FiredMembers(Queue(b, e.kind), e, w, y);
    }
  }

  /** The same in plain terms: who is called by a publish, and in which order. */
  lemma PublishServes(b: Bus, e: Event, w: Behaviour)
    requires Valid(b)
    ensures var fired := Deliver(Queue(b, e.kind), e, w).fired;
            && (forall y :: y in fired ==>
                  Live(b, y) && y.item.kind in {e.kind, "*"} && (y.item.filtered ==> w.filter(y.item, e) == Accept))
            && ((forall y :: Live(b, y) && y.item.kind in {e.kind, "*"} && y.item.filtered ==>
                   w.filter(y.item, e) != Raise) ==>
                forall y :: Live(b, y) && y.item.kind in {e.kind, "*"} ==>
                  (y in fired <==> !y.item.filtered || w.filter(y.item, e) == Accept))
            && (forall i, j :: 0 <= i < j < |fired| ==> fired[i].rank <= fired[j].rank)
            && (forall i, j :: 0 <= i < j < |fired| && fired[i].rank == fired[j].rank ==>
                  if fired[i].item.kind == "*" then fired[j].item.kind == "*" && fired[i].item.id < fired[j].item.id
                  else fired[j].item.kind == "*" || fired[i].item.id < fired[j].item.id)
  {
    DeliveryOrder(b, e, w);
  }
}
