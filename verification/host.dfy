/** Several wrappers made by separate `memoize` calls, sharing one clock.
    Each wrapper owns its cache and its deletions. */
module Host {
  import opened JsValues
  import opened Memo

  /** One wrapped function: its `memoize` arguments and its state. */
  datatype Wrapper = Wrapper(cfg: Config, state: State)

  datatype World = World(now: int, wrappers: seq<Wrapper>)

  /** `memoize(func, timeout, resolver)`: a new wrapper with an empty cache
      of its own, whatever wrappers already exist. */
  function Memoize(w: World, timeout: nat, resolver: Option<Resolver>): (w': World)
    ensures |w'.wrappers| == |w.wrappers| + 1
    ensures forall j :: 0 <= j < |w.wrappers| ==> w'.wrappers[j] == w.wrappers[j]
    ensures var n := w'.wrappers[|w.wrappers|];
      && n.cfg.timeout == timeout
      && n.cfg.resolver == resolver
      && n.state.now == w.now
      && n.state.cache == map[] && n.state.timers == [] && n.state.calls == 0
  {
    World(w.now, w.wrappers + [Wrapper(Config(timeout, resolver), Fresh(w.now))])
  }

  /** Calls wrapper `i`; no other wrapper changes. */
  function Invoke(w: World, i: nat, args: seq<JsVal>, func: Completion<JsVal>): (r: (World, Completion<JsVal>))
    requires i < |w.wrappers|
    ensures r.0.now == w.now
    ensures |r.0.wrappers| == |w.wrappers|
    ensures forall j :: 0 <= j < |w.wrappers| && j != i ==> r.0.wrappers[j] == w.wrappers[j]
    ensures r.0.wrappers[i].cfg == w.wrappers[i].cfg
  {
    var me := w.wrappers[i];
    var o := Call(me.cfg, me.state, args, func);
    (w.(wrappers := w.wrappers[i := me.(state := o.state)]), o.result)
  }

  /** Moves the shared clock; each wrapper's own deletions fire. */
  function Tick(w: World, d: nat): (w': World)
    ensures w'.now == w.now + d
    ensures |w'.wrappers| == |w.wrappers|
    ensures forall j :: 0 <= j < |w.wrappers| ==>
      w'.wrappers[j].cfg == w.wrappers[j].cfg && w'.wrappers[j].state.calls == w.wrappers[j].state.calls
  {
    World(w.now + d, seq(|w.wrappers|, j requires 0 <= j < |w.wrappers| =>
      w.wrappers[j].(state := Advance(w.wrappers[j].state, d))))
  }

  /** Every wrapper runs on the shared clock and is in a reachable state. */
  ghost predicate Synced(w: World) {
    forall j :: 0 <= j < |w.wrappers| ==>
      w.wrappers[j].state.now == w.now && Valid(w.wrappers[j].cfg, w.wrappers[j].state)
  }

  lemma MemoizeKeepsSynced(w: World, timeout: nat, resolver: Option<Resolver>)
    requires Synced(w)
    ensures Synced(Memoize(w, timeout, resolver))
  {
    FreshIsTidy(Config(timeout, resolver), w.now);
  }

  lemma InvokeKeepsSynced(w: World, i: nat, args: seq<JsVal>, func: Completion<JsVal>)
    requires i < |w.wrappers|
    requires Synced(w)
    ensures Synced(Invoke(w, i, args, func).0)
  {
    CallPreservesValid(w.wrappers[i].cfg, w.wrappers[i].state, args, func);
  }

  lemma TickKeepsSynced(w: World, d: nat)
    requires Synced(w)
    ensures Synced(Tick(w, d))
  {
    forall j | 0 <= j < |w.wrappers|
      ensures Valid(Tick(w, d).wrappers[j].cfg, Tick(w, d).wrappers[j].state)
    {
      AdvancePreservesValid(w.wrappers[j].cfg, w.wrappers[j].state, d);
    }
  }
}
