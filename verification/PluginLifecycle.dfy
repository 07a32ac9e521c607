/** The lifecycle of a plugin: what it registers through its helpers, and what cleaning up removes. */
module PluginLifecycle {
  import StableSort
  import Hooks = PluginHooks
  import Events
  import EventBus
  import Runs = EventRuns
  import Services = ServiceRegistry

  datatype PluginState = Created | Initialized | Started | Stopped | Failed

  // ---------------------------------------------------------------- keeping track of subscriptions

  /** Of the live subscriptions exactly the plugin's own are listed. */
  ghost predicate Tracks(b: Events.Bus, plugin: string, ids: seq<nat>) {
    && (forall id :: id in ids ==> id < b.nextId)
    && forall x :: Events.Live(b, x) ==> (x.item.plugin == plugin <==> x.item.id in ids)
  }

  /** The ids that a plugin's subscriptions got during a run. */
  function OwnIds(b: Events.Bus, ops: seq<Runs.Op>, plugin: string): seq<nat>
    decreases |ops|
  {
    if ops == [] then []
    else OwnId(b, ops[0], plugin) + OwnIds(Runs.Step(b, ops[0]), ops[1..], plugin)
  }

  /** The id that one operation gives the plugin, if any. */
  function OwnId(b: Events.Bus, op: Runs.Op, plugin: string): seq<nat> {
    if op.Subscribe? && op.plugin == plugin then [b.nextId] else []
  }

  lemma StepTracks(b: Events.Bus, op: Runs.Op, plugin: string, ids: seq<nat>)
    requires Events.Valid(b) && Tracks(b, plugin, ids)
    ensures Tracks(Runs.Step(b, op), plugin, ids + OwnId(b, op, plugin))
  {
    var c := Runs.Step(b, op);
    var more := ids + OwnId(b, op, plugin);
    Runs.StepIds(b, op);
    forall x | Events.Live(c, x) ensures x.item.plugin == plugin <==> x.item.id in more {
      if x.item.id < b.nextId {
        Runs.StepLive(b, op, x);
      } else {
        NewIsSubscribed(b, op, x);
      }
    }
  }

  /** Only a subscription adds an entry, with the next id. */
  lemma NewIsSubscribed(b: Events.Bus, op: Runs.Op, x: Events.Entry)
    requires Events.Valid(b) && Events.Live(Runs.Step(b, op), x) && x.item.id >= b.nextId
    ensures op.Subscribe? && x.item.plugin == op.plugin && x.item.id == b.nextId
    ensures Runs.Step(b, op).nextId == b.nextId + 1
  {
    Runs.StepValid(b, op);
    Events.LiveIsOlder(Runs.Step(b, op), x);
    if op.Subscribe? {
      var s := Events.Subscription(b.nextId, op.kind, op.plugin, op.callback, op.filtered, op.once);
      Events.SubscribeLive(b, op.priority, s, x);
      if Events.Live(b, x) {
        Events.LiveIsOlder(b, x);
      }
    }
  }

  /** Over every run of the bus a plugin that subscribes through its helper keeps track of what it owns. */
  lemma {:induction false} RunTracks(b: Events.Bus, ops: seq<Runs.Op>, plugin: string, ids: seq<nat>)
    requires Events.Valid(b) && Tracks(b, plugin, ids)
    ensures Tracks(Runs.Run(b, ops), plugin, ids + OwnIds(b, ops, plugin))
    decreases |ops|
  {
    if ops == [] {
      assert ids + [] == ids;
    } else {
      var own, rest := OwnId(b, ops[0], plugin), OwnIds(Runs.Step(b, ops[0]), ops[1..], plugin);
      StepTracks(b, ops[0], plugin, ids);
      Runs.StepValid(b, ops[0]);
      RunTracks(Runs.Step(b, ops[0]), ops[1..], plugin, ids + own);
      assert ids + own + rest == ids + (own + rest);
    }
  }

  function IdSet(ids: seq<nat>): set<nat> {
    set id | id in ids
  }

  /** Unsubscribing the listed ids removes the plugin's subscriptions and keeps all others in place. */
  lemma TrackedAreRemoved(b: Events.Bus, plugin: string, ids: seq<nat>)
    requires Events.Valid(b) && Tracks(b, plugin, ids)
    ensures Events.Keep(b, EventBus.NotAmong(IdSet(ids))) == Events.Keep(b, Events.NotPlugin(plugin))
  {
    forall x | Events.Live(b, x)
      ensures EventBus.NotAmong(IdSet(ids))(x.item) == Events.NotPlugin(plugin)(x.item)
    {
    }
    EventBus.KeepAgree(b, EventBus.NotAmong(IdSet(ids)), Events.NotPlugin(plugin));
  }

  /** Whatever happened on the bus before, a plugin's own ids are all it takes to remove what it owns. */
  lemma CleanupAfterAnyRun(ops: seq<Runs.Op>, plugin: string)
    ensures var b, own := Runs.Run(Events.EMPTY, ops), OwnIds(Events.EMPTY, ops, plugin);
            && Events.Keep(b, EventBus.NotAmong(IdSet(own))) == Events.Keep(b, Events.NotPlugin(plugin))
            && NoSubscriptions(Events.Keep(b, Events.NotPlugin(plugin)), plugin)
  {
    var b, own := Runs.Run(Events.EMPTY, ops), OwnIds(Events.EMPTY, ops, plugin);
    Runs.RunValid(Events.EMPTY, ops);
    RunTracks(Events.EMPTY, ops, plugin, []);
    assert [] + own == own;
    TrackedAreRemoved(b, plugin, own);
    Events.KeepValid(b, Events.NotPlugin(plugin));
  }

  // ---------------------------------------------------------------- after cleaning up

  ghost predicate NoHandlers(h: Hooks.HookRegistry, plugin: string)
    reads h, h.hooks.Values
  {
    forall n :: n in h.hooks ==> forall x :: x in h.hooks[n].handlers ==> x.item.plugin != plugin
  }

  /** The registrations in force at a hook, none if there is no such hook. */
  ghost function LiveAt(h: Hooks.HookRegistry, hookName: string): seq<Hooks.Entry>
    reads h, h.hooks.Values
  {
    if hookName in h.hooks then h.hooks[hookName].live else []
  }

  ghost predicate NoSubscriptions(b: Events.Bus, plugin: string) {
    forall x :: Events.Live(b, x) ==> x.item.plugin != plugin
  }

  lemma FilteredHook(h: Hooks.Hook, before: seq<Hooks.Entry>, plugin: string)
    requires h.Valid() && h.live == StableSort.Filter(before, Hooks.Others(plugin))
    ensures forall x :: x in h.handlers ==> x.item.plugin != plugin
  {
    forall x | x in h.handlers ensures x.item.plugin != plugin {
      StableSort.SortMembers(h.live, x);
      StableSort.FilterMembers(before, Hooks.Others(plugin), x);
    }
  }

  function HandlerEntry(priority: int, plugin: string, handler: Hooks.Handler): Hooks.Entry {
    StableSort.Ranked(priority, Hooks.Registration(plugin, handler))
  }

  /** Registers a handler at a hook, which is created if need be; nothing else changes. */
  method RegisterAt(h: Hooks.HookRegistry, hookName: string, handler: Hooks.Handler, priority: int, plugin: string)
    requires h.Valid()
    modifies h, h.hooks.Values
    ensures h.Valid() && hookName in h.hooks
    ensures hookName !in old(h.hooks) ==> h.hooks[hookName].allowShortCircuit
    ensures forall n :: LiveAt(h, n) == old(LiveAt(h, n))
                                        + (if n == hookName then [HandlerEntry(priority, plugin, handler)] else [])
  {
    var hook := h.GetOrCreateHook(hookName, true);
    assert h.hooks[hookName] == hook;
    hook.Register(handler, priority, plugin);
  }

  /** Removes a plugin's handlers from every hook; those of the others stay in order. */
  method RemoveHandlers(h: Hooks.HookRegistry, plugin: string)
    requires h.Valid()
    modifies h.hooks.Values
    ensures h.Valid() && NoHandlers(h, plugin)
    ensures forall n :: LiveAt(h, n) == StableSort.Filter(old(LiveAt(h, n)), Hooks.Others(plugin))
  {
    h.UnregisterPlugin(plugin);
    forall n | n in h.hooks ensures forall x :: x in h.hooks[n].handlers ==> x.item.plugin != plugin {
      FilteredHook(h.hooks[n], old(h.hooks[n].live), plugin);
    }
  }

  // ---------------------------------------------------------------- the class

  class Plugin {
    const name: string
    var state: PluginState
    var hooks: Hooks.HookRegistry?
    var bus: EventBus.EventBus?
    var services: Services.ServiceRegistry?
    var subscriptionIds: seq<nat>
    var registeredHooks: seq<string>

    /** The registries are in a proper state; nothing is said about who owns what. */
    ghost predicate Valid()
      reads this, hooks, bus, if hooks != null then hooks.hooks.Values else {}
    {
      (hooks != null ==> hooks.Valid()) && (bus != null ==> Events.Valid(bus.State()))
    }

    ghost predicate Tracked()
      reads this, bus
    {
      bus != null ==> Tracks(bus.State(), name, subscriptionIds)
    }

    constructor (name: string)
      ensures this.name == name && state == Created && hooks == null && bus == null && services == null
      ensures subscriptionIds == [] && Valid() && Tracked()
    {
      this.name := name;
      state := Created;
      hooks, bus, services := null, null, null;
      subscriptionIds, registeredHooks := [], [];
    }

    /** `raises` says whether the plugin's own initialisation fails. */
    method Initialize(h: Hooks.HookRegistry, b: EventBus.EventBus, s: Services.ServiceRegistry, raises: bool)
      returns (ok: bool)
      modifies this`hooks, this`bus, this`services, this`state
      ensures hooks == h && bus == b && services == s
      ensures ok == !raises && state == if raises then Failed else Initialized
    {
      hooks, bus, services := h, b, s;
      state := Initialized;
      if raises {
        state := Failed;
        return false;
      }
      return true;
    }

    /** Returns false, the source's exception, when there is no hook registry. */
    method RegisterHookHandler(hookName: string, handler: Hooks.Handler, priority: int) returns (ok: bool)
      requires Valid()
      modifies this`registeredHooks, hooks, if hooks != null then hooks.hooks.Values else {}
      ensures Valid() && ok == (hooks != null)
      ensures registeredHooks == if ok then old(registeredHooks) + [hookName] else old(registeredHooks)
      ensures ok && hookName !in old(hooks.hooks) ==>
                hookName in hooks.hooks && hooks.hooks[hookName].allowShortCircuit
      ensures ok ==> forall n ::
                LiveAt(hooks, n) == old(LiveAt(hooks, n))
                                    + (if n == hookName then [HandlerEntry(priority, name, handler)] else [])
    {
      if hooks == null {
        return false;
      }
      RegisterAt(hooks, hookName, handler, priority, name);
      registeredHooks := registeredHooks + [hookName];
      return true;
    }

    method SubscribeEvent(kind: string, priority: int, callback: nat, filtered: bool, once: bool)
      returns (ok: bool, id: nat)
      requires Valid()
      modifies this`subscriptionIds, bus
      ensures Valid() && ok == (bus != null)
      ensures var op := Runs.Subscribe(kind, priority, name, callback, filtered, once);
              ok ==> bus.State() == Runs.Step(old(bus.State()), op)
      ensures ok ==> subscriptionIds == old(subscriptionIds) + [id] && id == old(bus.nextId)
      ensures old(Tracked()) ==> Tracked()
    {
      if bus == null {
        return false, 0;
      }
      ghost var before, ids := bus.State(), subscriptionIds;
      ghost var op := Runs.Subscribe(kind, priority, name, callback, filtered, once);
      id := bus.Subscribe(kind, priority, name, callback, filtered, once);
      subscriptionIds := subscriptionIds + [id];
      if Tracks(before, name, ids) {
        StepTracks(before, op, name, ids);
      }
      return true, id;
    }

    method RegisterService(serviceName: string, value: nat, overwrite: bool) returns (ok: bool)
      modifies services
      ensures ok <==> services != null && (serviceName !in old(services.services) || overwrite)
      ensures services != null ==>
                services.State()
                == Services.Step(old(services.State()), Services.Register(serviceName, value, name, overwrite))
    {
      if services == null {
        return false;
      }
      var status := services.AddService(serviceName, value, name, overwrite);
      return status.Fine?;
    }

    method RegisterFactory(serviceName: string, factory: nat, overwrite: bool) returns (ok: bool)
      modifies services
      ensures ok <==> services != null && (serviceName !in old(services.factories) || overwrite)
      ensures services != null ==>
                services.State()
                == Services.Step(old(services.State()), Services.RegisterFactory(serviceName, factory, name, overwrite))
    {
      if services == null {
        return false;
      }
      var status := services.AddFactory(serviceName, factory, name, overwrite);
      return status.Fine?;
    }

    /** `raises` says whether the plugin's own clean-up fails; then nothing is unregistered. */
    method Cleanup(raises: bool)
      requires Valid()
      modifies this`state, this`subscriptionIds, bus, services, if hooks != null then hooks.hooks.Values else {}
      ensures Valid()
      ensures state == if raises then old(state) else Stopped
      ensures raises ==> unchanged(this) && (bus != null ==> unchanged(bus))
      ensures raises && services != null ==> unchanged(services)
      ensures raises && hooks != null ==> unchanged(hooks.hooks.Values)
      ensures !raises && hooks != null ==>
                && NoHandlers(hooks, name)
                && forall n :: LiveAt(hooks, n) == StableSort.Filter(old(LiveAt(hooks, n)), Hooks.Others(name))
      ensures !raises && bus != null && old(Tracked()) ==>
                && NoSubscriptions(bus.State(), name)
                && bus.State() == Events.Keep(old(bus.State()), Events.NotPlugin(name))
      ensures !raises && services != null ==>
                services.State() == Services.PluginUnregistered(old(services.State()), name)
      ensures !raises && services != null && Services.Owned(old(services.State())) ==>
                Services.NothingOf(services.State(), name)
    {
      if raises {
        return;
      }
      UnregisterAll();
      state := Stopped;
      if bus != null && old(Tracked()) {
        Events.KeepValid(old(bus.State()), Events.NotPlugin(name));
      }
      if services != null && Services.Owned(old(services.State())) {
        Services.LeavesOthersAlone(old(services.State()), name);
      }
    }

    method UnregisterAll()
      requires Valid()
      modifies this`subscriptionIds, bus, services, if hooks != null then hooks.hooks.Values else {}
      ensures Valid()
      ensures hooks != null ==>
                && NoHandlers(hooks, name)
                && forall n :: LiveAt(hooks, n) == StableSort.Filter(old(LiveAt(hooks, n)), Hooks.Others(name))
      ensures bus != null && old(Tracked()) ==> bus.State() == Events.Keep(old(bus.State()), Events.NotPlugin(name))
      ensures services != null ==>
                services.State() == Services.PluginUnregistered(old(services.State()), name)
    {
      if hooks != null {
        RemoveHandlers(hooks, name);
      }
      UnregisterRest();
    }

    /** The part of `_unregister_all` after the hooks. */
    method UnregisterRest()
      requires bus != null ==> Events.Valid(bus.State())
      modifies this`subscriptionIds, bus, services
      ensures bus != null ==> Events.Valid(bus.State())
      ensures bus != null && old(Tracked()) ==> bus.State() == Events.Keep(old(bus.State()), Events.NotPlugin(name))
      ensures services != null ==>
                services.State() == Services.PluginUnregistered(old(services.State()), name)
    {
      if bus != null {
        UnsubscribeAll();
      }
      if services != null {
        var _ := services.RemovePlugin(name);
      }
    }

    /** The loop over the plugin's own subscription ids. */
    method UnsubscribeAll()
      requires bus != null && Events.Valid(bus.State())
      modifies this`subscriptionIds, bus
      ensures Events.Valid(bus.State()) && subscriptionIds == []
      ensures bus.State() == Events.Keep(old(bus.State()), EventBus.NotAmong(IdSet(old(subscriptionIds))))
      ensures old(Tracked()) ==> bus.State() == Events.Keep(old(bus.State()), Events.NotPlugin(name))
    {
      ghost var c := bus.State();
      assert IdSet(subscriptionIds[..0]) == {};
      EventBus.KeepAll(c, EventBus.NotAmong({}));
      for i := 0 to |subscriptionIds|
        invariant subscriptionIds == old(subscriptionIds)
        invariant Events.Valid(bus.State())
        invariant bus.State() == Events.Keep(c, EventBus.NotAmong(IdSet(subscriptionIds[..i])))
      {
        ghost var done, next := IdSet(subscriptionIds[..i]), IdSet(subscriptionIds[..i + 1]);
        EventBus.KeepTwice(c, EventBus.NotAmong(done), Events.NotId(subscriptionIds[i]), EventBus.NotAmong(next));
        var _ := bus.Unsubscribe(subscriptionIds[i]);
      }
      assert subscriptionIds[..|subscriptionIds|] == subscriptionIds;
      if Tracks(c, name, subscriptionIds) {
        TrackedAreRemoved(c, name, subscriptionIds);
      }
      subscriptionIds := [];
    }
  }
}
