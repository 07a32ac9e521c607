/** What holds over every run of the event bus. */
module EventRuns {
  import opened StableSort
  import opened Events

  /** A publish brings the behaviour of filters and callbacks at that moment. */
  datatype Op =
    | Subscribe(kind: string, priority: int, plugin: string, callback: nat, filtered: bool, once: bool)
    | Unsubscribe(id: nat)
    | UnsubscribePlugin(gone: string)
    | Publish(event: Event, expired: bool, w: Behaviour)

  function Step(b: Bus, op: Op): Bus {
    match op
    case Subscribe(kind, priority, plugin, callback, filtered, once) =>
      Subscribed(b, priority, Subscription(b.nextId, kind, plugin, callback, filtered, once))
    case Unsubscribe(id) => Keep(b, NotId(id))
    case UnsubscribePlugin(gone) => Tidy(Keep(b, NotPlugin(gone)))
    case Publish(e, expired, w) => Published(b, e, expired, w)
  }

  /** The callbacks that one operation calls, and whether a filter raised. */
  function Effect(b: Bus, op: Op): Delivery {
    match op
    case Publish(e, expired, w) => if expired then Delivery([], false) else Deliver(Queue(b, e.kind), e, w)
    case _ => Delivery([], false)
  }

  function Run(b: Bus, ops: seq<Op>): Bus
    decreases |ops|
  {
    if ops == [] then b else Run(Step(b, ops[0]), ops[1..])
  }

  /** Every callback called during a run, in order. */
  function Log(b: Bus, ops: seq<Op>): seq<Entry>
    decreases |ops|
  {
    if ops == [] then [] else Effect(b, ops[0]).fired + Log(Step(b, ops[0]), ops[1..])
  }

  ghost predicate NoFilterRaises(b: Bus, ops: seq<Op>)
    decreases |ops|
  {
    ops == [] || (!Effect(b, ops[0]).aborted && NoFilterRaises(Step(b, ops[0]), ops[1..]))
  }

  function Publishes(ops: seq<Op>): nat
    decreases |ops|
  {
    if ops == [] then 0 else (if ops[0].Publish? then 1 else 0) + Publishes(ops[1..])
  }

  /** How often the subscription was called. */
  function Calls(log: seq<Entry>, id: nat): nat {
    if log == [] then 0 else Calls(log[..|log| - 1], id) + (if log[|log| - 1].item.id == id then 1 else 0)
  }

  // ---------------------------------------------------------------- every state

  lemma StepValid(b: Bus, op: Op)
    requires Valid(b)
    ensures Valid(Step(b, op))
  {
    match op
    case Subscribe(kind, priority, plugin, callback, filtered, once) =>
      SubscribeValid(b, priority, Subscription(b.nextId, kind, plugin, callback, filtered, once));
    case Unsubscribe(id) => KeepValid(b, NotId(id));
    case UnsubscribePlugin(gone) => KeepValid(b, NotPlugin(gone)); TidyValid(Keep(b, NotPlugin(gone)));
    case Publish(e, expired, w) => PublishValid(b, e, expired, w);
  }

  lemma {:induction false} RunValid(b: Bus, ops: seq<Op>)
    requires Valid(b)
    ensures Valid(Run(b, ops))
    decreases |ops|
  {
    if ops != [] {
      StepValid(b, ops[0]);
      RunValid(Step(b, ops[0]), ops[1..]);
    }
  }

  // ---------------------------------------------------------------- the counters

  lemma {:induction false} EachCounted(fired: seq<Entry>, e: Event, w: Behaviour)
    ensures |Filter(fired, Succeeds(e, w))| + |Filter(fired, Fails(e, w))| == |fired|
  {
    if fired != [] {
      EachCounted(fired[..|fired| - 1], e, w);
    }
  }

  /** Every publish is counted as published or dropped, every call as delivered or failed. */
  lemma {:induction false} CountersBalance(b: Bus, ops: seq<Op>)
    ensures var c := Run(b, ops);
            && c.published + c.dropped == b.published + b.dropped + Publishes(ops)
            && c.delivered + c.errors == b.delivered + b.errors + |Log(b, ops)|
    decreases |ops|
  {
    if ops != [] {
      CountersBalance(Step(b, ops[0]), ops[1..]);
      match ops[0]
      case Publish(e, expired, w) => EachCounted(Effect(b, ops[0]).fired, e, w);
      case _ =>
    }
  }

  /** The publishes of expired, or of unexpired, events. */
  function PublishesThat(ops: seq<Op>, expired: bool): nat
    decreases |ops|
  {
    if ops == [] then 0
    else (if ops[0].Publish? && ops[0].expired == expired then 1 else 0) + PublishesThat(ops[1..], expired)
  }

  /** For every callback called during a run, in order, whether it failed. */
  function Failures(b: Bus, ops: seq<Op>): seq<bool>
    decreases |ops|
  {
    if ops == [] then []
    else CallFailures(Effect(b, ops[0]).fired, ops[0]) + Failures(Step(b, ops[0]), ops[1..])
  }

  function CallFailures(fired: seq<Entry>, op: Op): seq<bool> {
    seq(|fired|, i requires 0 <= i < |fired| => op.Publish? && op.w.fails(fired[i].item, op.event))
  }

  function Count(s: seq<bool>, v: bool): nat {
    if s == [] then 0 else Count(s[..|s| - 1], v) + (if s[|s| - 1] == v then 1 else 0)
  }

  lemma {:induction false} CountAppend(a: seq<bool>, c: seq<bool>, v: bool)
    ensures Count(a + c, v) == Count(a, v) + Count(c, v)
  {
    if c == [] {
      assert a + c == a;
    } else {
      CountAppend(a, c[..|c| - 1], v);
      assert (a + c)[..|a + c| - 1] == a + c[..|c| - 1];
    }
  }

  lemma {:induction false} FailuresCounted(fired: seq<Entry>, e: Event, expired: bool, w: Behaviour)
    ensures |Filter(fired, Fails(e, w))| == Count(CallFailures(fired, Publish(e, expired, w)), true)
    ensures |Filter(fired, Succeeds(e, w))| == Count(CallFailures(fired, Publish(e, expired, w)), false)
  {
    if fired != [] {
      var n, op := |fired| - 1, Publish(e, expired, w);
      FailuresCounted(fired[..n], e, expired, w);
      assert CallFailures(fired, op)[..n] == CallFailures(fired[..n], op);
    }
  }

  lemma StepCounters(b: Bus, op: Op)
    ensures var c, calls := Step(b, op), CallFailures(Effect(b, op).fired, op);
            && c.published == b.published + (if op.Publish? && !op.expired then 1 else 0)
            && c.dropped == b.dropped + (if op.Publish? && op.expired then 1 else 0)
            && c.delivered == b.delivered + Count(calls, false)
            && c.errors == b.errors + Count(calls, true)
  {
    if op.Publish? {
      FailuresCounted(Effect(b, op).fired, op.event, op.expired, op.w);
    }
  }

  /**
   * What each counter says about a run: the unexpired events that were published, the expired ones
   * that were dropped, the callbacks that returned and those that failed.
   */
  lemma {:induction false} CountersMean(b: Bus, ops: seq<Op>)
    ensures var c := Run(b, ops);
            && c.published == b.published + PublishesThat(ops, false)
            && c.dropped == b.dropped + PublishesThat(ops, true)
            && c.delivered == b.delivered + Count(Failures(b, ops), false)
            && c.errors == b.errors + Count(Failures(b, ops), true)
    ensures |Failures(b, ops)| == |Log(b, ops)|
    decreases |ops|
  {
    if ops != [] {
      var calls, rest := CallFailures(Effect(b, ops[0]).fired, ops[0]), Failures(Step(b, ops[0]), ops[1..]);
      StepCounters(b, ops[0]);
      CountersMean(Step(b, ops[0]), ops[1..]);
      CountAppend(calls, rest, false);
      CountAppend(calls, rest, true);
    }
  }

  // ---------------------------------------------------------------- who is called

  ghost predicate Gone(b: Bus, id: nat) {
    id < b.nextId && forall x :: Live(b, x) ==> x.item.id != id
  }

  lemma {:induction false} CallsAppend(a: seq<Entry>, c: seq<Entry>, id: nat)
    ensures Calls(a + c, id) == Calls(a, id) + Calls(c, id)
  {
    if c == [] {
      assert a + c == a;
    } else {
      CallsAppend(a, c[..|c| - 1], id);
      assert (a + c)[..|a + c| - 1] == a + c[..|c| - 1];
    }
  }

  lemma {:induction false} NotCalled(log: seq<Entry>, id: nat)
    requires forall x :: x in log ==> x.item.id != id
    ensures Calls(log, id) == 0
  {
    if log != [] {
      assert log[|log| - 1] in log;
      NotCalled(log[..|log| - 1], id);
    }
  }

  /** What an operation calls is live and, for a publish, accepted. */
  lemma EffectIsLive(b: Bus, op: Op, x: Entry)
    requires Valid(b) && x in Effect(b, op).fired
    ensures Live(b, x) && op.Publish? && !op.expired && Matches(x.item, op.event, op.w) == Accept
  {
    match op
    case Publish(e, expired, w) =>
      FiredMembers(Queue(b, e.kind), e, w, x);
      QueueMembers(b, e.kind, x);
    case _ =>
  }

  /** In a list in delivery order an entry occurs at most once. */
  lemma {:induction false} CalledOnceIn(fired: seq<Entry>, x: Entry)
    requires InTurn(fired) && forall y :: y in fired && y.item.id == x.item.id ==> y == x
    ensures Calls(fired, x.item.id) == if x in fired then 1 else 0
  {
    if fired != [] {
      var front, last := fired[..|fired| - 1], fired[|fired| - 1];
      assert fired == front + [last] && last in fired;
      CalledOnceIn(front, x);
      if last == x {
        NotBeforeItself(fired, x);
      }
    }
  }

  lemma NotBeforeItself(fired: seq<Entry>, x: Entry)
    requires InTurn(fired) && fired != [] && fired[|fired| - 1] == x
    ensures x !in fired[..|fired| - 1]
  {
  }

  /** One operation calls a live subscription at most once. */
  lemma EffectCalls(b: Bus, op: Op, x: Entry)
    requires Valid(b) && Live(b, x)
    ensures Calls(Effect(b, op).fired, x.item.id) == if x in Effect(b, op).fired then 1 else 0
  {
    forall y | y in Effect(b, op).fired ensures Live(b, y) {
      EffectIsLive(b, op, y);
    }
    if op.Publish? {
      DeliveryOrder(b, op.event, op.w);
    }
    CalledOnceIn(Effect(b, op).fired, x);
  }

  lemma StepLive(b: Bus, op: Op, x: Entry)
    requires Valid(b) && x.item.id < b.nextId
    ensures Live(Step(b, op), x) <==> Live(b, x) && Survives(b, op, x.item)
  {
    match op
    case Subscribe(kind, priority, plugin, callback, filtered, once) =>
      SubscribeValid(b, priority, Subscription(b.nextId, kind, plugin, callback, filtered, once));
    case Unsubscribe(id) => KeepValid(b, NotId(id));
    case UnsubscribePlugin(gone) => KeepValid(b, NotPlugin(gone)); TidyValid(Keep(b, NotPlugin(gone)));
    case Publish(e, expired, w) =>
      if !expired {
        var a := Announced(b);
        var c := Counted(a, Deliver(Queue(a, e.kind), e, w).fired, e, w);
        SameLists(b, c);
        KeepValid(c, StaysAfter(e.kind));
        assert Live(b, x) <==> Live(c, x);
      }
  }

  /** Whether an operation leaves a subscription in force. */
  predicate Survives(b: Bus, op: Op, s: Subscription) {
    match op
    case Subscribe(_, _, _, _, _, _) => true
    case Unsubscribe(id) => s.id != id
    case UnsubscribePlugin(gone) => s.plugin != gone
    case Publish(e, expired, w) => expired || !s.once || !Concerns(s, e.kind) || Effect(b, op).aborted
  }

  lemma StepIds(b: Bus, op: Op)
    ensures b.nextId <= Step(b, op).nextId
  {
  }

  lemma GoneStays(b: Bus, op: Op, id: nat)
    requires Valid(b) && Gone(b, id)
    ensures Gone(Step(b, op), id)
  {
    StepIds(b, op);
    forall x | Live(Step(b, op), x) ensures x.item.id != id {
      if x.item.id == id {
        StepLive(b, op, x);
      }
    }
  }

  /** A subscription that has been removed is never called again. */
  lemma {:induction false} GoneNeverCalled(b: Bus, ops: seq<Op>, id: nat)
    requires Valid(b) && Gone(b, id)
    ensures Calls(Log(b, ops), id) == 0
    decreases |ops|
  {
    if ops != [] {
      GoneStays(b, ops[0], id);
      StepValid(b, ops[0]);
      GoneNeverCalled(Step(b, ops[0]), ops[1..], id);
      forall x | x in Effect(b, ops[0]).fired ensures x.item.id != id {
        EffectIsLive(b, ops[0], x);
      }
      NotCalled(Effect(b, ops[0]).fired, id);
      CallsAppend(Effect(b, ops[0]).fired, Log(Step(b, ops[0]), ops[1..]), id);
    }
  }

  // ---------------------------------------------------------------- one-shot subscriptions

  /**
   * Whether the first unexpired event that concerns a one-shot subscription, if any comes before
   * it is unsubscribed, is accepted by its filter.
   */
  function FirstEventAccepted(s: Subscription, ops: seq<Op>): bool
    decreases |ops|
  {
    if ops == [] then false
    else match ops[0]
      case Unsubscribe(id) => s.id != id && FirstEventAccepted(s, ops[1..])
      case UnsubscribePlugin(gone) => s.plugin != gone && FirstEventAccepted(s, ops[1..])
      case Publish(e, expired, w) =>
        if !expired && Concerns(s, e.kind) then Matches(s, e, w) == Accept
        else FirstEventAccepted(s, ops[1..])
      case _ => FirstEventAccepted(s, ops[1..])
  }

  lemma RemovedIsGone(b: Bus, op: Op, x: Entry)
    requires Valid(b) && Live(b, x) && !Survives(b, op, x.item)
    ensures Gone(Step(b, op), x.item.id)
  {
    LiveIsOlder(b, x);
    StepIds(b, op);
    forall y | Live(Step(b, op), y) ensures y.item.id != x.item.id {
      if y.item.id == x.item.id {
        StepLive(b, op, y);
      }
    }
  }

  lemma CalledIffAccepted(b: Bus, op: Op, x: Entry)
    requires Valid(b) && Live(b, x) && !Effect(b, op).aborted
    ensures x in Effect(b, op).fired <==> op.Publish? && !op.expired && Matches(x.item, op.event, op.w) == Accept
  {
    if op.Publish? {
      DeliveryOrder(b, op.event, op.w);
    }
  }

  /**
   * While no filter raises, a one-shot subscription is called once if its filter accepts the first
   * event that concerns it, and never otherwise: a rejected first event uses it up as well.
   */
  lemma {:induction false} OnceFate(b: Bus, ops: seq<Op>, x: Entry)
    requires Valid(b) && Live(b, x) && x.item.once && NoFilterRaises(b, ops)
    ensures Calls(Log(b, ops), x.item.id) == if FirstEventAccepted(x.item, ops) then 1 else 0
    decreases |ops|
  {
    if ops != [] {
      var op, rest := ops[0], ops[1..];
      StepValid(b, op);
      LiveIsOlder(b, x);
      StepLive(b, op, x);
      EffectCalls(b, op, x);
      CalledIffAccepted(b, op, x);
      CallsAppend(Effect(b, op).fired, Log(Step(b, op), rest), x.item.id);
      if Survives(b, op, x.item) {
        OnceFate(Step(b, op), rest, x);
      } else {
        RemovedIsGone(b, op, x);
        GoneNeverCalled(Step(b, op), rest, x.item.id);
      }
    }
  }

  /** In every run in which no filter raises, a one-shot subscription is called at most once. */
  lemma {:induction false} OnceAtMostOnce(b: Bus, ops: seq<Op>, x: Entry)
    requires Valid(b) && NoFilterRaises(b, ops) && x in Log(b, ops) && x.item.once
    ensures Calls(Log(b, ops), x.item.id) == 1
    decreases |ops|
  {
    var op, rest := ops[0], ops[1..];
    StepValid(b, op);
    CallsAppend(Effect(b, op).fired, Log(Step(b, op), rest), x.item.id);
    if x in Effect(b, op).fired {
      EffectIsLive(b, op, x);
      EffectCalls(b, op, x);
      RemovedIsGone(b, op, x);
      GoneNeverCalled(Step(b, op), rest, x.item.id);
    } else {
      OnceAtMostOnce(Step(b, op), rest, x);
      if exists y :: y in Effect(b, op).fired && y.item.id == x.item.id {
        var y :| y in Effect(b, op).fired && y.item.id == x.item.id;
        LaterIsSame(b, op, rest, x, y);
      } else {
        NotCalled(Effect(b, op).fired, x.item.id);
      }
    }
  }

  /** An id in the log belongs to one subscription. */
  lemma LaterIsSame(b: Bus, op: Op, rest: seq<Op>, x: Entry, y: Entry)
    requires Valid(b) && Valid(Step(b, op)) && y in Effect(b, op).fired && x in Log(Step(b, op), rest)
    requires x.item.id == y.item.id
    ensures x == y
  {
    EffectIsLive(b, op, y);
    LiveIsOlder(b, y);
    StepIds(b, op);
    LoggedWasLive(Step(b, op), rest, x);
    StepLive(b, op, x);
  }

  lemma {:induction false} LoggedWasLive(b: Bus, ops: seq<Op>, x: Entry)
    requires Valid(b) && x in Log(b, ops) && x.item.id < b.nextId
    ensures Live(b, x)
    decreases |ops|
  {
    if x in Effect(b, ops[0]).fired {
      EffectIsLive(b, ops[0], x);
    } else {
      StepValid(b, ops[0]);
      StepIds(b, ops[0]);
      LoggedWasLive(Step(b, ops[0]), ops[1..], x);
      StepLive(b, ops[0], x);
    }
  }

  /** After a publish a one-shot subscription that it concerns is gone unless a filter raised. */
  lemma OnceGoneIff(b: Bus, e: Event, w: Behaviour, x: Entry)
    requires Valid(b) && Live(b, x) && x.item.once && Concerns(x.item, e.kind)
    ensures Live(Step(b, Publish(e, false, w)), x) <==>
            exists y :: Live(b, y) && Matches(y.item, e, w) == Raise
  {
    LiveIsOlder(b, x);
    StepLive(b, Publish(e, false, w), x);
    DeliveryOrder(b, e, w);
  }

  /** After a raise the same event calls the subscription again. */
  lemma AgainAfterRaise(b: Bus, p: Op, x: Entry)
    requires Valid(b) && x in Effect(b, p).fired && Effect(b, p).aborted
    ensures Calls(Log(Step(b, p), [p]), x.item.id) == 1
  {
    var c := Step(b, p);
    StepValid(b, p);
    AbortChangesNoList(b, p);
    EffectIsLive(c, p, x);
    EffectCalls(c, p, x);
    LogOne(c, p);
  }

  /** An aborted publish leaves all subscriptions, so the same publish has the same effect again. */
  lemma AbortChangesNoList(b: Bus, p: Op)
    requires Effect(b, p).aborted
    ensures Effect(Step(b, p), p) == Effect(b, p)
  {
    assert Queue(Step(b, p), p.event.kind) == Queue(b, p.event.kind);
  }

  lemma LogOne(b: Bus, p: Op)
    ensures Log(b, [p]) == Effect(b, p).fired
  {
    assert [p][1..] == [] && Log(Step(b, p), []) == [];
  }

  /** A raising filter leaves one-shot subscriptions that were already called in force. */
  lemma RaiseRepeatsOnce(b: Bus, p: Op, x: Entry)
    requires Valid(b) && x in Effect(b, p).fired && Effect(b, p).aborted
    ensures x in Log(b, [p, p]) && Calls(Log(b, [p, p]), x.item.id) == 2
  {
    EffectIsLive(b, p, x);
    EffectCalls(b, p, x);
    AgainAfterRaise(b, p, x);
    assert [p, p][1..] == [p];
    CallsAppend(Effect(b, p).fired, Log(Step(b, p), [p]), x.item.id);
  }

  /**
   * The exact condition: a one-shot subscription that a publish called is never called again,
   * whatever happens next, exactly when no filter raised in that publish.
   */
  lemma NeverAgainIff(b: Bus, p: Op, x: Entry)
    requires Valid(b) && x.item.once && x in Effect(b, p).fired
    ensures (forall ops :: Calls(Log(Step(b, p), ops), x.item.id) == 0) <==> !Effect(b, p).aborted
  {
    StepValid(b, p);
    EffectIsLive(b, p, x);
    if Effect(b, p).aborted {
      AgainAfterRaise(b, p, x);
      assert Calls(Log(Step(b, p), [p]), x.item.id) == 1;
    } else {
      RemovedIsGone(b, p, x);
      forall ops ensures Calls(Log(Step(b, p), ops), x.item.id) == 0 {
        GoneNeverCalled(Step(b, p), ops, x.item.id);
      }
    }
  }

  /** The bus after two subscriptions of one type. */
  lemma TwoSubscribed(kind: string, x: Entry, y: Entry)
    requires kind != WILDCARD && x.item.kind == y.item.kind == kind && x.rank <= y.rank
    ensures var b := Subscribed(Subscribed(EMPTY, x.rank, x.item), y.rank, y.item);
            Queue(b, kind) == [x, y]
  {
    SortTwo(x, y);
    assert [] + [x] == [x] && [x] + [y] == [x, y] && [x, y] + [] == [x, y];
    var b1 := Subscribed(EMPTY, x.rank, x.item);
    assert Named(b1, kind) == [x];
  }

  /** A one-shot subscription, then one whose filter raises: a publish calls the first and is aborted. */
  lemma RaisingPublish(e: Event) returns (one: Op, two: Op, p: Op, x: Entry)
    requires e.kind != WILDCARD
    ensures one.Subscribe? && two.Subscribe? && p.Publish? && !p.expired && x.item.once
    ensures var b := Step(Step(EMPTY, one), two);
            x in Effect(b, p).fired && Effect(b, p).aborted
  {
    var w := Behaviour((s, f) => Raise, (s, f) => false);
    one, two := Subscribe(e.kind, 50, "a", 0, false, true), Subscribe(e.kind, 50, "b", 1, true, false);
    x := Ranked(50, Subscription(0, e.kind, "a", 0, false, true));
    var y := Ranked(50, Subscription(1, e.kind, "b", 1, true, false));
    p := Publish(e, false, w);
    SubscribesBoth(e.kind, x, y, one, two);
    AbortedAfter(Step(Step(EMPTY, one), two), e, w, x, y);
  }

  lemma SubscribesBoth(kind: string, x: Entry, y: Entry, one: Op, two: Op)
    requires kind != WILDCARD && x.item.kind == y.item.kind == kind && x.rank <= y.rank
    requires one == Subscribe(kind, x.rank, x.item.plugin, x.item.callback, x.item.filtered, x.item.once)
    requires two == Subscribe(kind, y.rank, y.item.plugin, y.item.callback, y.item.filtered, y.item.once)
    requires x.item.id == 0 && y.item.id == 1
    ensures Queue(Step(Step(EMPTY, one), two), kind) == [x, y]
  {
    TwoSubscribed(kind, x, y);
    assert Step(EMPTY, one) == Subscribed(EMPTY, x.rank, x.item);
  }

  lemma AbortedAfter(b: Bus, e: Event, w: Behaviour, x: Entry, y: Entry)
    requires Queue(b, e.kind) == [x, y]
    requires Matches(x.item, e, w) == Accept && Matches(y.item, e, w) == Raise
    ensures var p := Publish(e, false, w); x in Effect(b, p).fired && Effect(b, p).aborted
  {
    DeliverTwo(x, y, e, w);
  }

  /** Such a run: two subscriptions, then two publishes. */
  lemma OnceCalledTwice(e: Event)
    requires e.kind != WILDCARD
    ensures exists ops, x :: x in Log(EMPTY, ops) && x.item.once && Calls(Log(EMPTY, ops), x.item.id) == 2
  {
    var one, two, p, x := RaisingPublish(e);
    TwoPublishes(one, two, p, x);
  }

  lemma TwoPublishes(one: Op, two: Op, p: Op, x: Entry)
    requires one.Subscribe? && two.Subscribe? && p.Publish? && !p.expired
    requires var b := Step(Step(EMPTY, one), two);
             x in Effect(b, p).fired && Effect(b, p).aborted
    ensures x in Log(EMPTY, [one, two, p, p]) && Calls(Log(EMPTY, [one, two, p, p]), x.item.id) == 2
  {
    StepValid(EMPTY, one);
    StepValid(Step(EMPTY, one), two);
    SilentStep(EMPTY, one, [two, p, p]);
    SilentStep(Step(EMPTY, one), two, [p, p]);
    RaiseRepeatsOnce(Step(Step(EMPTY, one), two), p, x);
  }

  lemma SilentStep(b: Bus, op: Op, rest: seq<Op>)
    requires op.Subscribe?
    ensures Log(b, [op] + rest) == Log(Step(b, op), rest)
  {
    assert ([op] + rest)[1..] == rest;
  }

  lemma SortTwo(x: Entry, y: Entry)
    requires x.rank <= y.rank
    ensures Sort([x]) == [x] && Sort([x, y]) == [x, y]
  {
    var nothing: seq<Entry> := [];
    assert [x][..0] == nothing && [x, y][..1] == [x] && nothing + [x] == [x] && [x] + [y] == [x, y];
  }

  lemma DeliverTwo(x: Entry, y: Entry, e: Event, w: Behaviour)
    requires Matches(x.item, e, w) == Accept && Matches(y.item, e, w) == Raise
    ensures Deliver([x, y], e, w) == Delivery([x], true)
  {
    var nothing: seq<Entry> := [];
    assert [x][..0] == nothing && [x, y][..1] == [x] && nothing + [x] == [x];
    assert Deliver([x], e, w) == Delivery([x], false);
  }
}
