/** Hooks of the plugin runtime: `Hook` and `HookRegistry`. */
module PluginHooks {
  import opened StableSort

  /** The identity of a callable. */
  type Handler = nat

  datatype Registration = Registration(plugin: string, handler: Handler)

  type Entry = Ranked<Registration>

  /** What calling a handler leads to: `None`, some other value, or an exception. */
  datatype Answer = Nothing | Value(v: nat) | Raise

  datatype Outcome = Results(values: seq<Answer>) | HookException(plugin: string)

  /** What a handler answers when it is called with a number of answers already collected. */
  type Behaviour = (Handler, nat) -> Answer

  // ---------------------------------------------------------------- what a trigger does

  /** The answers of all handlers, were all of them called. */
  function Answers(hs: seq<Entry>, call: Behaviour): seq<Answer> {
    seq(|hs|, i requires 0 <= i < |hs| => call(hs[i].item.handler, i))
  }

  predicate Stops(a: Answer, shortCircuit: bool) {
    a.Raise? || (shortCircuit && a.Value?)
  }

  /** n is the position of the first answer that ends a trigger, or the number of answers. */
  predicate StopsAt(answers: seq<Answer>, shortCircuit: bool, n: nat) {
    && n <= |answers|
    && (forall j :: 0 <= j < n ==> !Stops(answers[j], shortCircuit))
    && (n < |answers| ==> Stops(answers[n], shortCircuit))
  }

  /** Every handler up to the first that ends the trigger has answered, and no other. */
  ghost predicate Triggered(hs: seq<Entry>, shortCircuit: bool, call: Behaviour, r: Outcome) {
    exists n: nat :: StopsAt(Answers(hs, call), shortCircuit, n) && r == Ending(hs, Answers(hs, call), n)
  }

  function Ending(hs: seq<Entry>, answers: seq<Answer>, n: nat): Outcome
    requires n <= |answers| == |hs|
  {
    if n == |answers| then Results(answers)
    else if answers[n].Raise? then HookException(hs[n].item.plugin)
    else Results(answers[..n + 1])
  }

  /** The outcome of a trigger is determined. */
  lemma TriggeredOnce(hs: seq<Entry>, shortCircuit: bool, call: Behaviour, r: Outcome, r': Outcome)
    requires Triggered(hs, shortCircuit, call, r) && Triggered(hs, shortCircuit, call, r')
    ensures r == r'
  {
    var a := Answers(hs, call);
    var n: nat :| StopsAt(a, shortCircuit, n) && r == Ending(hs, a, n);
    var m: nat :| StopsAt(a, shortCircuit, m) && r' == Ending(hs, a, m);
    assert n == m;
  }

  /** Handler i, called after i answers, neither raised nor cut the trigger short. */
  predicate GoesOn(hs: seq<Entry>, shortCircuit: bool, call: Behaviour, i: nat)
    requires i < |hs|
  {
    var a := call(hs[i].item.handler, i);
    !a.Raise? && (shortCircuit ==> a.Nothing?)
  }

  /**
   * What a trigger gives, told from the calls: the exception carries the plugin of the first handler
   * that raises; results are the answers up to the end or to the first value that cuts it short.
   */
  lemma TriggeredIff(hs: seq<Entry>, shortCircuit: bool, call: Behaviour, r: Outcome)
    ensures Triggered(hs, shortCircuit, call, r) <==>
              match r
              case HookException(p) =>
                exists n: nat :: n < |hs| && hs[n].item.plugin == p && call(hs[n].item.handler, n).Raise?
                                 && forall i: nat :: i < n ==> GoesOn(hs, shortCircuit, call, i)
              case Results(vs) =>
                && |vs| <= |hs|
                && (forall i: nat :: i < |vs| ==> vs[i] == call(hs[i].item.handler, i) && !vs[i].Raise?)
                && (forall i: nat :: i + 1 < |vs| ==> GoesOn(hs, shortCircuit, call, i))
                && (|vs| < |hs| ==> shortCircuit && vs != [] && vs[|vs| - 1].Value?)
  {
    var answers := Answers(hs, call);
    forall i: nat | i < |hs|
      ensures GoesOn(hs, shortCircuit, call, i) <==> !Stops(answers[i], shortCircuit)
    {
    }
    match r
    case HookException(p) => RaiseIff(hs, shortCircuit, call, p);
    case Results(vs) => ResultsIff(hs, shortCircuit, call, vs);
  }

  lemma RaiseIff(hs: seq<Entry>, shortCircuit: bool, call: Behaviour, p: string)
    ensures Triggered(hs, shortCircuit, call, HookException(p)) <==>
              exists n: nat :: n < |hs| && hs[n].item.plugin == p && call(hs[n].item.handler, n).Raise?
                               && forall i: nat :: i < n ==> GoesOn(hs, shortCircuit, call, i)
  {
    var answers := Answers(hs, call);
    if n: nat :| n < |hs| && hs[n].item.plugin == p && call(hs[n].item.handler, n).Raise?
                 && forall i: nat :: i < n ==> GoesOn(hs, shortCircuit, call, i) {
      forall j | 0 <= j < n ensures !Stops(answers[j], shortCircuit) {
        assert GoesOn(hs, shortCircuit, call, j);
      }
      assert StopsAt(answers, shortCircuit, n) && HookException(p) == Ending(hs, answers, n);
    }
    if Triggered(hs, shortCircuit, call, HookException(p)) {
      var n: nat :| StopsAt(answers, shortCircuit, n) && HookException(p) == Ending(hs, answers, n);
      forall i: nat | i < n ensures GoesOn(hs, shortCircuit, call, i) {
        assert !Stops(answers[i], shortCircuit);
      }
      assert call(hs[n].item.handler, n).Raise?;
    }
  }

  lemma ResultsIff(hs: seq<Entry>, shortCircuit: bool, call: Behaviour, vs: seq<Answer>)
    ensures Triggered(hs, shortCircuit, call, Results(vs)) <==>
              && |vs| <= |hs|
              && (forall i: nat :: i < |vs| ==> vs[i] == call(hs[i].item.handler, i) && !vs[i].Raise?)
              && (forall i: nat :: i + 1 < |vs| ==> GoesOn(hs, shortCircuit, call, i))
              && (|vs| < |hs| ==> shortCircuit && vs != [] && vs[|vs| - 1].Value?)
  {
    var answers := Answers(hs, call);
    if Triggered(hs, shortCircuit, call, Results(vs)) {
      var n: nat :| StopsAt(answers, shortCircuit, n) && Results(vs) == Ending(hs, answers, n);
      assert forall i: nat :: i < n ==> !Stops(answers[i], shortCircuit);
    }
    if && |vs| <= |hs|
       && (forall i: nat :: i < |vs| ==> vs[i] == call(hs[i].item.handler, i) && !vs[i].Raise?)
       && (forall i: nat :: i + 1 < |vs| ==> GoesOn(hs, shortCircuit, call, i))
       && (|vs| < |hs| ==> shortCircuit && vs != [] && vs[|vs| - 1].Value?)
    {
      assert vs == answers[..|vs|];
      var n := if vs != [] && Stops(vs[|vs| - 1], shortCircuit) then |vs| - 1 else |vs|;
      forall j | 0 <= j < n ensures !Stops(answers[j], shortCircuit) {
        assert j + 1 < |vs| ==> GoesOn(hs, shortCircuit, call, j);
      }
      assert StopsAt(answers, shortCircuit, n) && Results(vs) == Ending(hs, answers, n);
    }
  }

  /** Without short-circuiting every handler is called unless one raises. */
  lemma NoShortCircuit(hs: seq<Entry>, call: Behaviour, r: Outcome)
    requires Triggered(hs, false, call, r)
    ensures r.Results? <==> forall i :: 0 <= i < |hs| ==> !Answers(hs, call)[i].Raise?
    ensures r.Results? ==> r.values == Answers(hs, call)
  {
  }

  /** With it, all results but the last are `None`. */
  lemma ShortCircuit(hs: seq<Entry>, call: Behaviour, r: Outcome)
    requires Triggered(hs, true, call, r) && r.Results?
    ensures r.values <= Answers(hs, call)
    ensures forall j :: 0 <= j < |r.values| - 1 ==> r.values[j].Nothing?
    ensures |r.values| < |hs| ==> r.values != [] && r.values[|r.values| - 1].Value?
  {
  }

  // ---------------------------------------------------------------- one hook

  /** Keeps what other plugins registered. */
  function Others(plugin: string): Registration -> bool {
    (r: Registration) => r.plugin != plugin
  }

  /** Keeps what one plugin registered. */
  function Only(plugin: string): Registration -> bool {
    (r: Registration) => r.plugin == plugin
  }

  /** i is the first place where the handler is registered. */
  predicate FirstUse(hs: seq<Entry>, handler: Handler, i: nat) {
    i < |hs| && hs[i].item.handler == handler && forall j :: 0 <= j < i ==> hs[j].item.handler != handler
  }

  lemma {:induction false} RemovesAt<T>(s: seq<Ranked<T>>, i: nat)
    requires i < |s| && s[i] !in s[..i]
    ensures RemoveFirst(s, s[i]) == s[..i] + s[i + 1..]
  {
    var front, last := s[..|s| - 1], s[|s| - 1];
    if i < |s| - 1 {
      assert front[..i] == s[..i] && front[i] == s[i] && s[i] in front;
      RemovesAt(front, i);
      assert s[i + 1..] == front[i + 1..] + [last];
    }
  }

  class Hook {
    const name: string
    const allowShortCircuit: bool
    var handlers: seq<Entry>
    /** The registrations in force, in the order in which they were made. */
    ghost var live: seq<Entry>

    ghost predicate Valid()
      reads this
    {
      handlers == Sort(live)
    }

    constructor (name: string, allowShortCircuit: bool)
      ensures Valid() && this.name == name && this.allowShortCircuit == allowShortCircuit && live == []
    {
      this.name := name;
      this.allowShortCircuit := allowShortCircuit;
      handlers := [];
      live := [];
    }

    method Register(handler: Handler, priority: int, plugin: string)
      requires Valid()
      modifies this
      ensures Valid() && live == old(live) + [Ranked(priority, Registration(plugin, handler))]
    {
      ghost var x := Ranked(priority, Registration(plugin, handler));
      SortAgain(live, x);
      handlers := handlers + [Ranked(priority, Registration(plugin, handler))];
      handlers := Sort(handlers);
      live := live + [x];
    }

    /** Drops the first registration of the handler in calling order. */
    method Unregister(handler: Handler) returns (found: bool, ghost at: nat)
      requires Valid()
      modifies this
      ensures Valid()
      ensures found ==> FirstUse(old(handlers), handler, at) && live == RemoveFirst(old(live), old(handlers)[at])
      ensures found ==> handlers == old(handlers)[..at] + old(handlers)[at + 1..]
      ensures !found ==> live == old(live) && forall j :: 0 <= j < |handlers| ==> handlers[j].item.handler != handler
    {
      for i := 0 to |handlers|
        invariant forall j :: 0 <= j < i ==> handlers[j].item.handler != handler
      {
        if handlers[i].item.handler == handler {
          RemovesAt(handlers, i);
          RemoveFirstSorts(live, handlers[i]);
          live := RemoveFirst(live, handlers[i]);
          handlers := handlers[..i] + handlers[i + 1..];
          return true, i;
        }
      }
      return false, 0;
    }

    /** The count is that of the handlers that stay, although the source's comment reads otherwise. */
    method UnregisterAll(plugin: string) returns (count: nat)
      requires Valid()
      modifies this
      ensures Valid() && live == Filter(old(live), Others(plugin))
      ensures count == |handlers|
    {
      count := 0;
      var kept := [];
      for i := 0 to |handlers|
        invariant kept == Filter(handlers[..i], Others(plugin)) && count == |kept|
      {
        assert handlers[..i + 1][..i] == handlers[..i];
        if handlers[i].item.plugin != plugin {
          count := count + 1;
          kept := kept + [handlers[i]];
        }
      }
      assert handlers[..|handlers|] == handlers;
      FilterSorts(live, Others(plugin));
      handlers := kept;
      live := Filter(live, Others(plugin));
    }

    /** Calls a snapshot of the handlers in order. */
    method Trigger(call: Behaviour) returns (r: Outcome)
      ensures Triggered(handlers, allowShortCircuit, call, r)
    {
      var results := [];
      var snapshot := handlers;
      ghost var answers := Answers(snapshot, call);
      for i := 0 to |snapshot|
        invariant results == answers[..i]
        invariant forall j :: 0 <= j < i ==> !Stops(answers[j], allowShortCircuit)
      {
        var result := call(snapshot[i].item.handler, |results|);
        if result.Raise? {
          assert StopsAt(answers, allowShortCircuit, i);
          return HookException(snapshot[i].item.plugin);
        }
        results := results + [result];
        if allowShortCircuit && result.Value? {
          assert StopsAt(answers, allowShortCircuit, i);
          return Results(results);
        }
      }
      assert StopsAt(answers, allowShortCircuit, |answers|);
      return Results(results);
    }
  }

  // ---------------------------------------------------------------- all hooks

  class HookRegistry {
    var hooks: map<string, Hook>

    ghost predicate Valid()
      reads this, hooks.Values
    {
      forall n :: n in hooks ==> hooks[n].name == n && hooks[n].Valid()
    }

    constructor ()
      ensures Valid() && hooks == map[]
    {
      hooks := map[];
    }

    /** None when the name is taken, which the source reports as an exception. */
    method RegisterHook(name: string, allowShortCircuit: bool) returns (hook: Hook?)
      requires Valid()
      modifies this
      ensures Valid()
      ensures hook == null <==> name in old(hooks)
      ensures hook == null ==> hooks == old(hooks)
      ensures hook != null ==> fresh(hook) && hook.live == [] && hook.allowShortCircuit == allowShortCircuit
      ensures hook != null ==> hooks == old(hooks)[name := hook]
    {
      if name in hooks {
        return null;
      }
      hook := new Hook(name, allowShortCircuit);
      hooks := hooks[name := hook];
    }

    method GetOrCreateHook(name: string, allowShortCircuit: bool) returns (hook: Hook)
      requires Valid()
      modifies this
      ensures Valid() && hooks == old(hooks)[name := hook]
      ensures name in old(hooks) ==> hook == old(hooks)[name]
      ensures name !in old(hooks) ==> fresh(hook) && hook.live == [] && hook.allowShortCircuit == allowShortCircuit
    {
      if name in hooks {
        hook := hooks[name];
      } else {
        hook := new Hook(name, allowShortCircuit);
        hooks := hooks[name := hook];
      }
    }

    /** Removes every handler of a plugin and keeps the others in their order. */
    method UnregisterPlugin(plugin: string)
      requires Valid()
      modifies hooks.Values
      ensures Valid() && hooks == old(hooks)
      ensures forall n :: n in hooks ==> hooks[n].live == Filter(old(hooks[n].live), Others(plugin))
    {
      var todo := hooks.Keys;
      while todo != {}
        invariant todo <= hooks.Keys && hooks == old(hooks) && Valid()
        invariant forall n :: n in hooks ==>
                    hooks[n].live == if n in todo then old(hooks[n].live)
                                     else Filter(old(hooks[n].live), Others(plugin))
        decreases |todo|
      {
        var n :| n in todo;
        var _ := hooks[n].UnregisterAll(plugin);
        todo := todo - {n};
      }
    }

    /** An unknown hook gives no results; the source's comment promises an exception. */
    method Trigger(name: string, call: Behaviour) returns (r: Outcome)
      ensures name !in hooks ==> r == Results([])
      ensures name in hooks ==> Triggered(hooks[name].handlers, hooks[name].allowShortCircuit, call, r)
    {
      if name !in hooks {
        return Results([]);
      }
      r := hooks[name].Trigger(call);
    }
  }

  /** Removing one plugin's handlers leaves those of every other plugin alone, in their order. */
  lemma {:induction false} OthersKept(s: seq<Entry>, gone: string, plugin: string)
    requires gone != plugin
    ensures Filter(Filter(s, Others(gone)), Only(plugin)) == Filter(s, Only(plugin))
    ensures Filter(Filter(s, Others(gone)), Only(gone)) == []
  {
    if s != [] {
      OthersKept(s[..|s| - 1], gone, plugin);
      var f := Filter(s[..|s| - 1], Others(gone));
      assert f + [] == f;
      FilterAppend(f, s[|s| - 1], Only(plugin));
      FilterAppend(f, s[|s| - 1], Only(gone));
    }
  }

  /**
   * Handlers are called by priority, and by registration among equal priorities: the list a
   * trigger walks through is sorted and has the registrations in force of each priority in order.
   */
  lemma CalledInOrder(h: Hook, k: int)
    requires h.Valid()
    ensures Sorted(h.handlers) && OfRank(h.handlers, k) == OfRank(h.live, k)
  {
    SortIsStable(h.live);
  }
}
