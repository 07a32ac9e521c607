/** The service registry of the plugin runtime: services, factories and chains of aliases. */
module ServiceRegistry {

  /** A registered object; `owner` records who registered it, for the statements about ownership. */
  datatype Provided = Provided(value: nat, owner: string)

  datatype Meta = Meta(isFactory: bool, plugin: string)

  datatype Registry = Registry(
    services: map<string, Provided>,
    factories: map<string, Provided>,
    aliases: map<string, string>,
    metadata: map<string, Meta>)

  const EMPTY := Registry(map[], map[], map[], map[])

  datatype Error = AlreadyRegistered | AliasExists | NameIsService | NoTarget

  datatype Status = Fine | Raised(error: Error)

  /** What `get` leads to: the shared instance, or a call of the factory. */
  datatype Got = Instance(value: nat) | MadeBy(factory: nat) | Missing

  // ---------------------------------------------------------------- operations on values

  datatype Op =
    | Register(name: string, value: nat, plugin: string, overwrite: bool)
    | RegisterFactory(name: string, factory: nat, plugin: string, overwrite: bool)
    | RegisterAlias(alias: string, target: string)
    | Unregister(gone: string)
    | UnregisterPlugin(leaving: string)

  function Registered(r: Registry, name: string, value: nat, plugin: string): Registry {
    r.(services := r.services[name := Provided(value, plugin)], metadata := r.metadata[name := Meta(false, plugin)])
  }

  function FactoryRegistered(r: Registry, name: string, factory: nat, plugin: string): Registry {
    r.(factories := r.factories[name := Provided(factory, plugin)], metadata := r.metadata[name := Meta(true, plugin)])
  }

  predicate Known(r: Registry, name: string) {
    name in r.services || name in r.factories
  }

  /** An alias needs a free name and a target that is a service or a factory. */
  predicate AliasAllowed(r: Registry, alias: string, target: string) {
    alias !in r.aliases && !Known(r, alias) && Known(r, target)
  }

  /** A singleton goes before a factory, and a factory before an alias. */
  function Unregistered(r: Registry, name: string): Registry {
    if name in r.services then r.(services := r.services - {name}, metadata := r.metadata - {name})
    else if name in r.factories then r.(factories := r.factories - {name}, metadata := r.metadata - {name})
    else r.(aliases := r.aliases - {name})
  }

  /** The names whose latest registration was made by a plugin. */
  function NamesOf(r: Registry, plugin: string): set<string> {
    set n | n in r.metadata && r.metadata[n].plugin == plugin
  }

  function Without(r: Registry, gone: set<string>): Registry {
    r.(services := r.services - gone, factories := r.factories - gone, metadata := r.metadata - gone)
  }

  function PluginUnregistered(r: Registry, plugin: string): Registry {
    Without(r, NamesOf(r, plugin))
  }

  lemma WithoutOneMore(r: Registry, gone: set<string>, name: string)
    ensures Without(Without(r, gone), {name}) == Without(r, gone + {name})
    ensures Without(r, {}) == r
  {
    assert r.services - gone - {name} == r.services - (gone + {name});
    assert r.factories - gone - {name} == r.factories - (gone + {name});
    assert r.metadata - gone - {name} == r.metadata - (gone + {name});
  }

  lemma NextName(r: Registry, plugin: string, gone: set<string>, todo: set<string>, name: string)
    requires name in todo && todo <= r.metadata.Keys && gone == NamesOf(r, plugin) - todo
    ensures var m := Without(r, gone).metadata;
            && name in m && m[name] == r.metadata[name]
            && NamesOf(r, plugin) - (todo - {name}) == if m[name].plugin == plugin then gone + {name} else gone
    ensures |gone + {name}| == |gone| + 1
    ensures Without(Without(r, gone), {name}) == Without(r, gone + {name})
  {
    WithoutOneMore(r, gone, name);
  }

  function Step(r: Registry, op: Op): Registry {
    match op
    case Register(name, value, plugin, overwrite) =>
      if name in r.services && !overwrite then r else Registered(r, name, value, plugin)
    case RegisterFactory(name, factory, plugin, overwrite) =>
      if name in r.factories && !overwrite then r else FactoryRegistered(r, name, factory, plugin)
    case RegisterAlias(alias, target) =>
      if AliasAllowed(r, alias, target) then r.(aliases := r.aliases[alias := target]) else r
    case Unregister(gone) => Unregistered(r, gone)
    case UnregisterPlugin(leaving) => PluginUnregistered(r, leaving)
  }

  function Run(r: Registry, ops: seq<Op>): Registry
    decreases |ops|
  {
    if ops == [] then r else Run(Step(r, ops[0]), ops[1..])
  }

  // ---------------------------------------------------------------- chains of aliases

  /** Following aliases from a name leaves them within n steps. */
  predicate EndsWithin(aliases: map<string, string>, name: string, n: nat)
    decreases n
  {
    name !in aliases || (n > 0 && EndsWithin(aliases, aliases[name], n - 1))
  }

  ghost predicate Ends(aliases: map<string, string>, name: string) {
    exists n: nat :: EndsWithin(aliases, name, n)
  }

  /** The name that the chain ends with. */
  function Follow(aliases: map<string, string>, name: string, n: nat): (actual: string)
    requires EndsWithin(aliases, name, n)
    ensures actual !in aliases
    decreases n
  {
    if name !in aliases then name else Follow(aliases, aliases[name], n - 1)
  }

  ghost function Resolve(aliases: map<string, string>, name: string): (actual: string)
    requires Ends(aliases, name)
    ensures actual !in aliases
  {
    var n: nat :| EndsWithin(aliases, name, n);
    Follow(aliases, name, n)
  }

  /** No chain of aliases is endless. */
  ghost predicate AllEnd(aliases: map<string, string>) {
    forall name :: Ends(aliases, name)
  }

  lemma {:induction false} FollowAgrees(aliases: map<string, string>, name: string, n: nat, m: nat)
    requires EndsWithin(aliases, name, n) && EndsWithin(aliases, name, m)
    ensures Follow(aliases, name, n) == Follow(aliases, name, m)
    decreases n
  {
    if name in aliases {
      FollowAgrees(aliases, aliases[name], n - 1, m - 1);
    }
  }

  /** Resolving an alias is resolving its target. */
  lemma ResolveStep(aliases: map<string, string>, name: string)
    requires Ends(aliases, name) && name in aliases
    ensures Ends(aliases, aliases[name]) && Resolve(aliases, name) == Resolve(aliases, aliases[name])
  {
    var n: nat :| EndsWithin(aliases, name, n);
    ResolveIs(aliases, name, n);
    ResolveIs(aliases, aliases[name], n - 1);
  }

  lemma ResolveIs(aliases: map<string, string>, name: string, n: nat)
    requires EndsWithin(aliases, name, n)
    ensures Ends(aliases, name) && Resolve(aliases, name) == Follow(aliases, name, n)
  {
    var m: nat :| EndsWithin(aliases, name, m) && Resolve(aliases, name) == Follow(aliases, name, m);
    FollowAgrees(aliases, name, n, m);
  }

  /** A chain that avoids the new alias ends where it ended; one that meets it goes on to the target. */
  lemma {:induction false} NewAliasEnds(aliases: map<string, string>, alias: string, target: string,
                                        name: string, n: nat, t: nat)
    requires alias !in aliases && EndsWithin(aliases, name, n)
    requires EndsWithin(aliases[alias := target], target, t)
    ensures EndsWithin(aliases[alias := target], name, n + t + 1)
    decreases n
  {
    var new_ := aliases[alias := target];
    if name == alias {
      EndsLater(new_, target, t, n + t);
    } else if name in aliases {
      NewAliasEnds(aliases, alias, target, aliases[name], n - 1, t);
    }
  }

  lemma {:induction false} EndsLater(aliases: map<string, string>, name: string, n: nat, m: nat)
    requires EndsWithin(aliases, name, n) && n <= m
    ensures EndsWithin(aliases, name, m)
    decreases n
  {
    if name in aliases {
      EndsLater(aliases, aliases[name], n - 1, m - 1);
    }
  }

  /** A chain that does not run into the new alias is not changed by it. */
  lemma {:induction false} AvoidsAlias(aliases: map<string, string>, alias: string, target: string,
                                       name: string, n: nat)
    requires alias !in aliases && EndsWithin(aliases, name, n) && Follow(aliases, name, n) != alias
    ensures EndsWithin(aliases[alias := target], name, n)
    decreases n
  {
    if name in aliases {
      AvoidsAlias(aliases, alias, target, aliases[name], n - 1);
    }
  }

  /** A chain that runs into an alias does not end before that alias's chain does. */
  lemma {:induction false} RunsInto(aliases: map<string, string>, alias: string, target: string,
                                    name: string, n: nat, k: nat)
    requires alias !in aliases && EndsWithin(aliases, name, n) && Follow(aliases, name, n) == alias
    requires EndsWithin(aliases[alias := target], name, k)
    ensures EndsWithin(aliases[alias := target], alias, k)
    decreases n
  {
    if name != alias {
      RunsInto(aliases, alias, target, aliases[name], n - 1, k - 1);
      EndsLater(aliases[alias := target], alias, k - 1, k);
    }
  }

  /** If the target leads back to the alias the chain never ends. */
  lemma {:induction false} CycleNeverEnds(aliases: map<string, string>, alias: string, target: string, n: nat, k: nat)
    requires alias !in aliases && EndsWithin(aliases, target, n) && Follow(aliases, target, n) == alias
    ensures !EndsWithin(aliases[alias := target], alias, k)
    decreases k
  {
    if EndsWithin(aliases[alias := target], alias, k) {
      RunsInto(aliases, alias, target, target, n, k - 1);
      CycleNeverEnds(aliases, alias, target, n, k - 1);
    }
  }

  /** A new alias keeps every chain finite exactly when its target does not lead back to it. */
  lemma AliasKeepsEnding(aliases: map<string, string>, alias: string, target: string)
    requires AllEnd(aliases) && alias !in aliases
    ensures AllEnd(aliases[alias := target]) <==> Resolve(aliases, target) != alias
  {
    assert Ends(aliases, target);
    var n: nat :| EndsWithin(aliases, target, n);
    ResolveIs(aliases, target, n);
    var longer := aliases[alias := target];
    if Resolve(aliases, target) != alias {
      AvoidsAlias(aliases, alias, target, target, n);
      forall name ensures Ends(longer, name) {
        assert Ends(aliases, name);
        var m: nat :| EndsWithin(aliases, name, m);
        NewAliasEnds(aliases, alias, target, name, m, n);
      }
    } else {
      forall k: nat ensures !EndsWithin(longer, alias, k) {
        CycleNeverEnds(aliases, alias, target, n, k);
      }
      assert !Ends(longer, alias);
    }
  }

  lemma {:induction false} ShorterEnds(aliases: map<string, string>, gone: string, name: string, n: nat)
    requires EndsWithin(aliases, name, n)
    ensures EndsWithin(aliases - {gone}, name, n)
    decreases n
  {
    if name in aliases && name != gone {
      ShorterEnds(aliases, gone, aliases[name], n - 1);
    }
  }

  lemma RemovalKeepsEnding(aliases: map<string, string>, gone: string)
    requires AllEnd(aliases)
    ensures AllEnd(aliases - {gone})
  {
    var shorter := aliases - {gone};
    forall name ensures Ends(shorter, name) {
      assert Ends(aliases, name);
      var n: nat :| EndsWithin(aliases, name, n);
      ShorterEnds(aliases, gone, name, n);
    }
  }

  // ---------------------------------------------------------------- histories

  /** The operation does not register a service or factory under a name that is an alias. */
  predicate Polite(r: Registry, op: Op) {
    match op
    case Register(name, _, _, _) => name !in r.aliases
    case RegisterFactory(name, _, _, _) => name !in r.aliases
    case _ => true
  }

  predicate PoliteRun(r: Registry, ops: seq<Op>)
    decreases |ops|
  {
    ops == [] || (Polite(r, ops[0]) && PoliteRun(Step(r, ops[0]), ops[1..]))
  }

  /** No alias is the name of a service or factory, and every chain ends. */
  ghost predicate Sound(r: Registry) {
    (forall a :: a in r.aliases ==> !Known(r, a)) && AllEnd(r.aliases)
  }

  lemma StepSound(r: Registry, op: Op)
    requires Sound(r) && Polite(r, op)
    ensures Sound(Step(r, op))
  {
    match op
    case RegisterAlias(alias, target) =>
      if AliasAllowed(r, alias, target) {
        assert EndsWithin(r.aliases, target, 0);
        ResolveIs(r.aliases, target, 0);
        AliasKeepsEnding(r.aliases, alias, target);
      }
    case Unregister(gone) =>
      if !Known(r, gone) {
        RemovalKeepsEnding(r.aliases, gone);
      }
    case _ =>
  }

  /** In every history that leaves aliased names alone both resolution loops end for every name. */
  lemma {:induction false} PoliteRunsResolve(r: Registry, ops: seq<Op>)
    requires Sound(r) && PoliteRun(r, ops)
    ensures Sound(Run(r, ops))
    decreases |ops|
  {
    if ops != [] {
      StepSound(r, ops[0]);
      PoliteRunsResolve(Step(r, ops[0]), ops[1..]);
    }
  }

  lemma EmptySound()
    ensures Sound(EMPTY)
  {
    forall name ensures Ends(EMPTY.aliases, name) {
      assert EndsWithin(EMPTY.aliases, name, 0);
    }
  }

  /** From an empty registry on, `get` and `get_metadata` return for every name. */
  lemma PoliteHistoriesResolve(ops: seq<Op>)
    requires PoliteRun(EMPTY, ops)
    ensures AllEnd(Run(EMPTY, ops).aliases)
  {
    EmptySound();
    PoliteRunsResolve(EMPTY, ops);
  }

  /** The exact law of one step: only an alias whose target leads back to it makes an endless chain. */
  lemma StepKeepsEndingIff(r: Registry, op: Op)
    requires AllEnd(r.aliases)
    ensures AllEnd(Step(r, op).aliases) <==> KeepsEnding(r, op)
  {
    match op
    case RegisterAlias(alias, target) =>
      assert Ends(r.aliases, target);
      if AliasAllowed(r, alias, target) {
        AliasKeepsEnding(r.aliases, alias, target);
      }
    case Unregister(gone) => RemovalKeepsEnding(r.aliases, gone);
    case _ =>
  }

  /** What a caller can resolve before the call so that every chain still ends. */
  ghost predicate KeepsEnding(r: Registry, op: Op) {
    op.RegisterAlias? && AliasAllowed(r, op.alias, op.target) ==> ResolvesElsewhere(r, op.target, op.alias)
  }

  ghost predicate ResolvesElsewhere(r: Registry, name: string, alias: string) {
    Ends(r.aliases, name) && Resolve(r.aliases, name) != alias
  }

  ghost predicate KeepsEndingRun(r: Registry, ops: seq<Op>)
    decreases |ops|
  {
    ops == [] || (KeepsEnding(r, ops[0]) && KeepsEndingRun(Step(r, ops[0]), ops[1..]))
  }

  /** Every chain ends in every state of the run. */
  ghost predicate AlwaysEnds(r: Registry, ops: seq<Op>)
    decreases |ops|
  {
    AllEnd(r.aliases) && (ops == [] || AlwaysEnds(Step(r, ops[0]), ops[1..]))
  }

  /** Both resolution loops end throughout a history exactly when every operation meets its guard. */
  lemma {:induction false} AlwaysEndsIff(r: Registry, ops: seq<Op>)
    requires AllEnd(r.aliases)
    ensures AlwaysEnds(r, ops) <==> KeepsEndingRun(r, ops)
    decreases |ops|
  {
    if ops != [] {
      StepKeepsEndingIff(r, ops[0]);
      if KeepsEnding(r, ops[0]) {
        AlwaysEndsIff(Step(r, ops[0]), ops[1..]);
      }
    }
  }

  /** A history that registers over an alias and ends with two aliases of each other. */
  lemma RegisteringOverAliasLoops(a: string, s: string)
    requires a != s
    ensures var r := Run(EMPTY, [Register(s, 0, "p", false), RegisterAlias(a, s), Register(a, 1, "p", false),
                                 Unregister(s), RegisterAlias(s, a)]);
            !Ends(r.aliases, a) && !Ends(r.aliases, s)
  {
    var o1, o2, o3 := Register(s, 0, "p", false), RegisterAlias(a, s), Register(a, 1, "p", false);
    var o4, o5 := Unregister(s), RegisterAlias(s, a);
    var r3 := Step(Step(Step(EMPTY, o1), o2), o3);
    assert r3.aliases == map[a := s] && a in r3.services && s in r3.services && s !in r3.factories;
    var r4 := Step(r3, o4);
    var r5 := Step(r4, o5);
    assert r5.aliases == map[a := s, s := a];
    RunFive(EMPTY, o1, o2, o3, o4, o5);
    forall k: nat ensures !EndsWithin(r5.aliases, a, k) && !EndsWithin(r5.aliases, s, k) {
      TwoCycle(r5.aliases, a, s, k);
    }
  }

  lemma RunCons(r: Registry, op: Op, rest: seq<Op>)
    ensures Run(r, [op] + rest) == Run(Step(r, op), rest)
  {
    assert ([op] + rest)[1..] == rest;
  }

  lemma RunFive(r: Registry, o1: Op, o2: Op, o3: Op, o4: Op, o5: Op)
    ensures Run(r, [o1, o2, o3, o4, o5]) == Step(Step(Step(Step(Step(r, o1), o2), o3), o4), o5)
  {
    RunCons(r, o1, [o2, o3, o4, o5]);
    RunCons(Step(r, o1), o2, [o3, o4, o5]);
    var r2 := Step(Step(r, o1), o2);
    RunCons(r2, o3, [o4, o5]);
    RunCons(Step(r2, o3), o4, [o5]);
    RunCons(Step(Step(r2, o3), o4), o5, []);
  }

  lemma {:induction false} TwoCycle(aliases: map<string, string>, a: string, b: string, k: nat)
    requires a in aliases && b in aliases && aliases[a] == b && aliases[b] == a
    ensures !EndsWithin(aliases, a, k) && !EndsWithin(aliases, b, k)
  {
    if k > 0 {
      TwoCycle(aliases, a, b, k - 1);
    }
  }

  // ---------------------------------------------------------------- lookup

  function GetActual(r: Registry, actual: string): Got {
    if actual in r.services then Instance(r.services[actual].value)
    else if actual in r.factories then MadeBy(r.factories[actual].value)
    else Missing
  }

  ghost function Get(r: Registry, name: string): Got
    requires Ends(r.aliases, name)
  {
    GetActual(r, Resolve(r.aliases, name))
  }

  /** A name that is not an alias is looked up directly. */
  lemma UnaliasedGet(r: Registry, name: string)
    requires name !in r.aliases
    ensures Ends(r.aliases, name) && Get(r, name) == GetActual(r, name)
  {
    ResolveIs(r.aliases, name, 0);
  }

  /** A service is found under its own name exactly unless an alias of that name leads elsewhere. */
  lemma RegisteredIsFound(r: Registry, name: string, value: nat, plugin: string)
    requires Ends(r.aliases, name)
    ensures var c := Registered(r, name, value, plugin);
            && (name !in r.aliases ==> Get(c, name) == Instance(value))
            && (name in r.aliases ==>
                  Get(c, name) == GetActual(c, Resolve(r.aliases, name)) && Resolve(r.aliases, name) != name)
  {
    if name !in r.aliases {
      UnaliasedGet(Registered(r, name, value, plugin), name);
    }
  }

  /** What every name gives after each operation: with the empty registry this fixes `get`. */
  lemma GetAfterRegister(r: Registry, name: string, value: nat, plugin: string, m: string)
    requires Ends(r.aliases, m)
    ensures Get(Registered(r, name, value, plugin), m)
         == if Resolve(r.aliases, m) == name then Instance(value) else Get(r, m)
  {
  }

  lemma GetAfterFactory(r: Registry, name: string, factory: nat, plugin: string, m: string)
    requires Ends(r.aliases, m)
    ensures Get(FactoryRegistered(r, name, factory, plugin), m)
         == if Resolve(r.aliases, m) == name && name !in r.services then MadeBy(factory) else Get(r, m)
  {
  }

  lemma NothingInEmpty(m: string)
    ensures Ends(EMPTY.aliases, m) && Get(EMPTY, m) == Missing
  {
    UnaliasedGet(EMPTY, m);
  }

  /** Unregistering undoes a registration of each kind. */
  lemma UnregisterUndoes(r: Registry, name: string, value: nat, plugin: string, target: string)
    ensures name !in r.services && name !in r.metadata ==> Unregistered(Registered(r, name, value, plugin), name) == r
    ensures !Known(r, name) && name !in r.metadata ==>
              Unregistered(FactoryRegistered(r, name, value, plugin), name) == r
    ensures AliasAllowed(r, name, target) ==> Unregistered(Step(r, RegisterAlias(name, target)), name) == r
  {
    assert name !in r.services ==> r.services[name := Provided(value, plugin)] - {name} == r.services;
    assert name !in r.factories ==> r.factories[name := Provided(value, plugin)] - {name} == r.factories;
    assert name !in r.metadata ==> r.metadata[name := Meta(false, plugin)] - {name} == r.metadata;
    assert name !in r.metadata ==> r.metadata[name := Meta(true, plugin)] - {name} == r.metadata;
    assert name !in r.aliases ==> r.aliases[name := target] - {name} == r.aliases;
  }

  /** An alias always gives what its target gives, however the target changes later. */
  lemma AliasIsTransparent(r: Registry, alias: string)
    requires alias in r.aliases && Ends(r.aliases, alias)
    ensures Ends(r.aliases, r.aliases[alias]) && Get(r, alias) == Get(r, r.aliases[alias])
  {
    ResolveStep(r.aliases, alias);
  }

  // ---------------------------------------------------------------- ownership

  /** The metadata of every service and factory names the plugin that registered it. */
  predicate Owned(r: Registry) {
    && (forall n :: n in r.services ==> n in r.metadata && r.metadata[n].plugin == r.services[n].owner)
    && (forall n :: n in r.factories ==> n in r.metadata && r.metadata[n].plugin == r.factories[n].owner)
  }

  ghost predicate NothingOf(r: Registry, plugin: string) {
    && (forall n :: n in r.services ==> r.services[n].owner != plugin)
    && (forall n :: n in r.factories ==> r.factories[n].owner != plugin)
  }

  /** Registering keeps the metadata right exactly when the name is not another plugin's factory. */
  lemma RegisterKeepsOwned(r: Registry, name: string, value: nat, plugin: string)
    requires Owned(r)
    ensures Owned(Registered(r, name, value, plugin)) <==> (name in r.factories ==> r.factories[name].owner == plugin)
  {
    var c := Registered(r, name, value, plugin);
    if name in r.factories && r.factories[name].owner != plugin {
      assert c.metadata[name].plugin != c.factories[name].owner;
    }
  }

  lemma FactoryKeepsOwned(r: Registry, name: string, factory: nat, plugin: string)
    requires Owned(r)
    ensures Owned(FactoryRegistered(r, name, factory, plugin)) <==>
            (name in r.services ==> r.services[name].owner == plugin)
  {
    var c := FactoryRegistered(r, name, factory, plugin);
    if name in r.services && r.services[name].owner != plugin {
      assert c.metadata[name].plugin != c.services[name].owner;
    }
  }

  /** Unregistering a name that is both drops the metadata that the factory still needs. */
  lemma UnregisterKeepsOwned(r: Registry, name: string)
    requires Owned(r)
    ensures Owned(Unregistered(r, name)) <==> !(name in r.services && name in r.factories)
  {
    var c := Unregistered(r, name);
    if name in r.services && name in r.factories {
      assert name in c.factories && name !in c.metadata;
    }
  }

  /** What a caller can look up before the call so that the metadata stays true. */
  predicate KeepsOwned(r: Registry, op: Op) {
    match op
    case Register(name, _, plugin, overwrite) =>
      (name in r.services && !overwrite) || (name in r.factories ==> r.factories[name].owner == plugin)
    case RegisterFactory(name, _, plugin, overwrite) =>
      (name in r.factories && !overwrite) || (name in r.services ==> r.services[name].owner == plugin)
    case Unregister(gone) => !(gone in r.services && gone in r.factories)
    case _ => true
  }

  /** The exact law of one step. */
  lemma StepKeepsOwnedIff(r: Registry, op: Op)
    requires Owned(r)
    ensures Owned(Step(r, op)) <==> KeepsOwned(r, op)
  {
    match op
    case Register(name, value, plugin, _) => RegisterKeepsOwned(r, name, value, plugin);
    case RegisterFactory(name, factory, plugin, _) => FactoryKeepsOwned(r, name, factory, plugin);
    case Unregister(gone) => UnregisterKeepsOwned(r, gone);
    case _ =>
  }

  predicate KeepsOwnedRun(r: Registry, ops: seq<Op>)
    decreases |ops|
  {
    ops == [] || (KeepsOwned(r, ops[0]) && KeepsOwnedRun(Step(r, ops[0]), ops[1..]))
  }

  /** The metadata is true in every state of the run. */
  predicate AlwaysOwned(r: Registry, ops: seq<Op>)
    decreases |ops|
  {
    Owned(r) && (ops == [] || AlwaysOwned(Step(r, ops[0]), ops[1..]))
  }

  /** The metadata stays true throughout a history exactly when every operation meets its guard. */
  lemma {:induction false} AlwaysOwnedIff(r: Registry, ops: seq<Op>)
    requires Owned(r)
    ensures AlwaysOwned(r, ops) <==> KeepsOwnedRun(r, ops)
    decreases |ops|
  {
    if ops != [] {
      StepKeepsOwnedIff(r, ops[0]);
      if KeepsOwned(r, ops[0]) {
        AlwaysOwnedIff(Step(r, ops[0]), ops[1..]);
      }
    }
  }

  lemma {:induction false} AlwaysOwnedAtEnd(r: Registry, ops: seq<Op>)
    requires AlwaysOwned(r, ops)
    ensures Owned(Run(r, ops))
    decreases |ops|
  {
    if ops != [] {
      AlwaysOwnedAtEnd(Step(r, ops[0]), ops[1..]);
    }
  }

  /** No name is both a singleton and a factory. */
  predicate OneKind(r: Registry) {
    r.services.Keys !! r.factories.Keys
  }

  predicate OneKindRun(r: Registry, ops: seq<Op>)
    decreases |ops|
  {
    OneKind(r) && (ops == [] || OneKindRun(Step(r, ops[0]), ops[1..]))
  }

  lemma {:induction false} OneKindKeepsOwned(r: Registry, ops: seq<Op>)
    requires Owned(r) && OneKindRun(r, ops)
    ensures KeepsOwnedRun(r, ops)
    decreases |ops|
  {
    if ops != [] {
      var op := ops[0];
      assert OneKind(Step(r, op));
      if op.Register? && (op.name !in r.services || op.overwrite) {
        assert op.name in Step(r, op).services;
      }
      if op.RegisterFactory? && (op.name !in r.factories || op.overwrite) {
        assert op.name in Step(r, op).factories;
      }
      StepKeepsOwnedIff(r, op);
      OneKindKeepsOwned(Step(r, op), ops[1..]);
    }
  }

  /** In particular it stays true while no name is both a singleton and a factory. */
  lemma RunOwned(r: Registry, ops: seq<Op>)
    requires Owned(r) && OneKindRun(r, ops)
    ensures AlwaysOwned(r, ops) && Owned(Run(r, ops))
  {
    OneKindKeepsOwned(r, ops);
    AlwaysOwnedIff(r, ops);
    AlwaysOwnedAtEnd(r, ops);
  }

  /** A history after which a singleton is still there although its plugin has been unregistered. */
  lemma SingletonOutlivesPlugin(s: string)
    ensures var r := Run(EMPTY, [Register(s, 0, "p", false), RegisterFactory(s, 1, "q", false), UnregisterPlugin("p")]);
            s in r.services && r.services[s].owner == "p" && !NothingOf(r, "p")
  {
    var o1, o2, o3 := Register(s, 0, "p", false), RegisterFactory(s, 1, "q", false), UnregisterPlugin("p");
    var r2 := Step(Step(EMPTY, o1), o2);
    RunCons(EMPTY, o1, [o2, o3]);
    RunCons(Step(EMPTY, o1), o2, [o3]);
    RunCons(r2, o3, []);
    assert r2.metadata[s] == Meta(true, "q") && s !in NamesOf(r2, "p");
    assert s in Step(r2, o3).services;
  }

  /** A leaving plugin leaves nothing exactly when the metadata of all it registered still names it. */
  lemma NothingLeftIff(r: Registry, plugin: string)
    ensures NothingOf(PluginUnregistered(r, plugin), plugin) <==>
            && (forall n :: n in r.services && r.services[n].owner == plugin ==> n in NamesOf(r, plugin))
            && (forall n :: n in r.factories && r.factories[n].owner == plugin ==> n in NamesOf(r, plugin))
  {
    var c := PluginUnregistered(r, plugin);
    if NothingOf(c, plugin) {
      forall n | n in r.services && r.services[n].owner == plugin ensures n in NamesOf(r, plugin) {
        assert n !in c.services;
      }
      forall n | n in r.factories && r.factories[n].owner == plugin ensures n in NamesOf(r, plugin) {
        assert n !in c.factories;
      }
    }
  }

  /** With sound metadata a leaving plugin takes all it registered and nothing else. */
  lemma LeavesOthersAlone(r: Registry, plugin: string)
    requires Owned(r)
    ensures var c := PluginUnregistered(r, plugin);
            && NothingOf(c, plugin) && c.aliases == r.aliases
            && (forall n :: n in c.services <==> n in r.services && r.services[n].owner != plugin)
            && (forall n :: n in c.services ==> c.services[n] == r.services[n])
            && (forall n :: n in c.factories <==> n in r.factories && r.factories[n].owner != plugin)
            && (forall n :: n in c.factories ==> c.factories[n] == r.factories[n])
  {
  }

  // ---------------------------------------------------------------- the class

  class ServiceRegistry {
    var services: map<string, Provided>
    var factories: map<string, Provided>
    var aliases: map<string, string>
    var metadata: map<string, Meta>

    function State(): Registry
      reads this
    {
      Registry(services, factories, aliases, metadata)
    }

    constructor ()
      ensures State() == EMPTY
    {
      services, factories, aliases, metadata := map[], map[], map[], map[];
    }

    method AddService(name: string, value: nat, plugin: string, overwrite: bool) returns (status: Status)
      modifies this
      ensures State() == Step(old(State()), Register(name, value, plugin, overwrite))
      ensures status.Fine? ==> services == old(services)[name := Provided(value, plugin)]
      ensures status.Fine? ==> metadata == old(metadata)[name := Meta(false, plugin)]
      ensures status == if name in old(services) && !overwrite then Raised(AlreadyRegistered) else Fine
    {
      if name in services && !overwrite {
        return Raised(AlreadyRegistered);
      }
      services := services[name := Provided(value, plugin)];
      metadata := metadata[name := Meta(false, plugin)];
      return Fine;
    }

    method AddFactory(name: string, factory: nat, plugin: string, overwrite: bool) returns (status: Status)
      modifies this
      ensures State() == Step(old(State()), RegisterFactory(name, factory, plugin, overwrite))
      ensures status.Fine? ==> factories == old(factories)[name := Provided(factory, plugin)]
      ensures status.Fine? ==> metadata == old(metadata)[name := Meta(true, plugin)]
      ensures status == if name in old(factories) && !overwrite then Raised(AlreadyRegistered) else Fine
    {
      if name in factories && !overwrite {
        return Raised(AlreadyRegistered);
      }
      factories := factories[name := Provided(factory, plugin)];
      metadata := metadata[name := Meta(true, plugin)];
      return Fine;
    }

    method AddAlias(alias: string, target: string) returns (status: Status)
      modifies this`aliases
      ensures State() == Step(old(State()), RegisterAlias(alias, target))
      ensures status ==
                if alias in old(aliases) then Raised(AliasExists)
                else if alias in services || alias in factories then Raised(NameIsService)
                else if target !in services && target !in factories then Raised(NoTarget)
                else Fine
      ensures aliases == if status.Fine? then old(aliases)[alias := target] else old(aliases)
    {
      if alias in aliases {
        return Raised(AliasExists);
      }
      if alias in services || alias in factories {
        return Raised(NameIsService);
      }
      if target !in services && target !in factories {
        return Raised(NoTarget);
      }
      aliases := aliases[alias := target];
      return Fine;
    }

    /** The loop that `get` and `get_metadata` share. It ends only if the chain does. */
    method Actual(name: string) returns (actual: string)
      requires Ends(aliases, name)
      ensures actual == Resolve(aliases, name)
    {
      actual := name;
      ghost var n: nat :| EndsWithin(aliases, name, n);
      ResolveIs(aliases, name, n);
      while actual in aliases
        invariant EndsWithin(aliases, actual, n) && Follow(aliases, actual, n) == Resolve(aliases, name)
        decreases n
      {
        actual := aliases[actual];
        n := n - 1;
      }
    }

    method GetService(name: string) returns (got: Got)
      requires Ends(aliases, name)
      ensures got == Get(State(), name)
    {
      var actual := Actual(name);
      if actual in services {
        return Instance(services[actual].value);
      }
      if actual in factories {
        return MadeBy(factories[actual].value);
      }
      return Missing;
    }

    /** None when there is no metadata under the resolved name. */
    method GetMetadata(name: string) returns (found: bool, meta: Meta)
      requires Ends(aliases, name)
      ensures found <==> Resolve(aliases, name) in metadata
      ensures found ==> meta == metadata[Resolve(aliases, name)]
    {
      var actual := Actual(name);
      if actual in metadata {
        return true, metadata[actual];
      }
      return false, Meta(false, "");
    }

    method Remove(name: string) returns (found: bool)
      modifies this
      ensures State() == Step(old(State()), Unregister(name))
      ensures found <==> Known(old(State()), name) || name in old(aliases)
    {
      if name in services {
        services := services - {name};
        metadata := metadata - {name};
        return true;
      }
      if name in factories {
        factories := factories - {name};
        metadata := metadata - {name};
        return true;
      }
      if name in aliases {
        aliases := aliases - {name};
        return true;
      }
      return false;
    }

    /** `pop` on all three dictionaries. */
    method Forget(name: string)
      modifies this
      ensures State() == Without(old(State()), {name})
    {
      services := services - {name};
      factories := factories - {name};
      metadata := metadata - {name};
    }

    method RemovePlugin(plugin: string) returns (count: nat)
      modifies this
      ensures State() == Step(old(State()), UnregisterPlugin(plugin))
      ensures count == |NamesOf(old(State()), plugin)|
    {
      count := 0;
      ghost var before := State();
      ghost var gone: set<string> := {};
      WithoutOneMore(before, {}, "");
      var todo := metadata.Keys;
      while todo != {}
        invariant todo <= before.metadata.Keys && gone == NamesOf(before, plugin) - todo && count == |gone|
        invariant State() == Without(before, gone)
        decreases |todo|
      {
        var name :| name in todo;
        NextName(before, plugin, gone, todo, name);
        if metadata[name].plugin == plugin {
          Forget(name);
          gone := gone + {name};
          count := count + 1;
        }
        todo := todo - {name};
      }
      assert gone == NamesOf(before, plugin);
    }
  }
}
