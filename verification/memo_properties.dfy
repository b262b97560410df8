/** What a caller of the memoized wrapper can rely on, stated over single
    calls and over traces of calls and clock advances. */
module MemoProperties {
  import opened JsValues
  import Json
  import opened Memo

  // ---------------------------------------------------------------------
  // Single calls
  // ---------------------------------------------------------------------

  /** A hit returns the stored value; `func` is not invoked and nothing in
      the wrapper changes, whatever `func` would have done. */
  lemma HitServesStoredValue(cfg: Config, m: State, args: seq<JsVal>, func: Completion<JsVal>, k: Key)
    requires KeyOf(cfg, args) == Normal(k)
    requires IsHit(m, k)
    ensures Call(cfg, m, args, func).result == Normal(Lookup(m, k))
    ensures Call(cfg, m, args, func).state == m
  {
  }

  /** A miss invokes `func` exactly once and passes on its outcome. A returned
      value is stored under the key with one deletion scheduled one timer
      delay from now; no other key is touched. */
  lemma MissInvokesFuncOnce(cfg: Config, m: State, args: seq<JsVal>, func: Completion<JsVal>, k: Key)
    requires KeyOf(cfg, args) == Normal(k)
    requires !IsHit(m, k)
    ensures var o := Call(cfg, m, args, func);
      && o.result == func
      && o.state.calls == m.calls + 1
      && o.state.now == m.now
      && (forall k' :: k' != k ==> (k' in o.state.cache <==> k' in m.cache) && Lookup(o.state, k') == Lookup(m, k'))
      && (func.Normal? ==> Lookup(o.state, k) == func.value && o.state.timers == m.timers + [Timer(m.now + Delay(cfg.timeout), k)])
  {
  }

  /** When `func` throws, the exception reaches the caller and nothing is
      stored or scheduled; only the invocation is counted. */
  lemma FailureStoresNothing(cfg: Config, m: State, args: seq<JsVal>, e: JsVal, k: Key)
    requires KeyOf(cfg, args) == Normal(k)
    requires !IsHit(m, k)
    ensures var o := Call(cfg, m, args, Throw(e));
      && o.result == Throw(e)
      && o.state == m.(calls := m.calls + 1)
      && !IsHit(o.state, k)
  {
  }

  /** A throwing resolver propagates its exception; `func` is not invoked
      and nothing changes. */
  lemma ResolverErrorChangesNothing(cfg: Config, m: State, args: seq<JsVal>, func: Completion<JsVal>, e: JsVal)
    requires KeyOf(cfg, args) == Throw(e)
    ensures Call(cfg, m, args, func) == Outcome(m, Throw(e))
  {
  }

  /** A call whose key differs from `k2` leaves the entry under `k2` as it
      was, including whether it is a hit. */
  lemma OtherKeysUntouched(cfg: Config, m: State, args: seq<JsVal>, func: Completion<JsVal>, k2: Key)
    requires KeyOf(cfg, args).Normal? && KeyOf(cfg, args).value != k2
    ensures Lookup(Call(cfg, m, args, func).state, k2) == Lookup(m, k2)
    ensures IsHit(Call(cfg, m, args, func).state, k2) == IsHit(m, k2)
  {
  }

  // ---------------------------------------------------------------------
  // Two calls with the same arguments
  // ---------------------------------------------------------------------

  /** Once a call has returned a value other than `undefined`, an immediate
      second call returns the same value without invoking `func`. This holds
      for a stored `null` too. */
  lemma SecondCallHits(cfg: Config, m: State, args: seq<JsVal>, func1: Completion<JsVal>, func2: Completion<JsVal>)
    requires Call(cfg, m, args, func1).result.Normal?
    requires !Call(cfg, m, args, func1).result.value.Undefined?
    ensures var m1 := Call(cfg, m, args, func1).state;
      && Call(cfg, m1, args, func2).result == Call(cfg, m, args, func1).result
      && Call(cfg, m1, args, func2).state == m1
  {
  }

  /** `undefined` is the "nothing stored" marker: after `func` returned it,
      the next call with the same key invokes `func` again. */
  lemma UndefinedIsNeverAHit(cfg: Config, m: State, args: seq<JsVal>, func2: Completion<JsVal>)
    requires KeyOf(cfg, args).Normal?
    requires !IsHit(m, KeyOf(cfg, args).value)
    ensures var m1 := Call(cfg, m, args, Normal(Undefined)).state;
      && m1.calls == m.calls + 1
      && Call(cfg, m1, args, func2).result == func2
      && Call(cfg, m1, args, func2).state.calls == m.calls + 2
  {
  }

  /** After `func` threw, the next call with the same key invokes it again. */
  lemma FailureIsRetried(cfg: Config, m: State, args: seq<JsVal>, e: JsVal, func2: Completion<JsVal>)
    requires KeyOf(cfg, args).Normal?
    requires !IsHit(m, KeyOf(cfg, args).value)
    ensures var m1 := Call(cfg, m, args, Throw(e)).state;
      && Call(cfg, m1, args, func2).result == func2
      && Call(cfg, m1, args, func2).state.calls == m.calls + 2
  {
  }

  // ---------------------------------------------------------------------
  // Keys
  // ---------------------------------------------------------------------

  /** Without a resolver the key is the whole ordered argument list: two
      calls share an entry exactly when their arguments agree once each
      `undefined` is read as `null`. */
  lemma DefaultKeyIsWholeArgumentList(cfg: Config, a: seq<JsVal>, b: seq<JsVal>)
    requires cfg.resolver.None?
    ensures KeyOf(cfg, a) == KeyOf(cfg, b) <==> Json.NormalizeAll(a) == Json.NormalizeAll(b)
  {
    Json.SerializeEqualIff(a, b);
  }

  /** The default key is not the first argument alone: calls that agree on
      it but differ later, other than by `undefined` against `null`, get
      different entries; `f(1, 2)` and `f(1, 3)` are one such pair. */
  lemma DefaultKeyIsNotFirstArgument(cfg: Config, a: seq<JsVal>, b: seq<JsVal>)
    requires cfg.resolver.None?
    ensures 0 < |a| && 0 < |b| && a[0] == b[0] && Json.NormalizeAll(a) != Json.NormalizeAll(b)
      ==> KeyOf(cfg, a) != KeyOf(cfg, b)
    ensures KeyOf(cfg, [Num(1), Num(2)]) != KeyOf(cfg, [Num(1), Num(3)])
  {
    DefaultKeyIsWholeArgumentList(cfg, a, b);
    DefaultKeyIsWholeArgumentList(cfg, [Num(1), Num(2)], [Num(1), Num(3)]);
    assert Json.NormalizeAll([Num(1), Num(2)])[1] == Num(2);
    assert Json.NormalizeAll([Num(1), Num(3)])[1] == Num(3);
  }

  /** The default key does not tell `undefined` from `null` arguments. */
  lemma DefaultKeyConflatesUndefinedAndNull(cfg: Config)
    requires cfg.resolver.None?
    ensures KeyOf(cfg, [Undefined]) == KeyOf(cfg, [Null])
  {
    DefaultKeyIsWholeArgumentList(cfg, [Undefined], [Null]);
    assert Json.NormalizeAll([Undefined]) == [Null];
    assert Json.NormalizeAll([Null]) == [Null];
  }

  /** Calls with different keys invoke `func` once each and then each serve
      their own value. */
  lemma DistinctKeysCachedSeparately(cfg: Config, m: State, a: seq<JsVal>, b: seq<JsVal>,
                                     v1: JsVal, v2: JsVal, f3: Completion<JsVal>, f4: Completion<JsVal>)
    requires KeyOf(cfg, a).Normal? && KeyOf(cfg, b).Normal?
    requires KeyOf(cfg, a).value != KeyOf(cfg, b).value
    requires !IsHit(m, KeyOf(cfg, a).value) && !IsHit(m, KeyOf(cfg, b).value)
    requires !v1.Undefined? && !v2.Undefined?
    ensures var m1 := Call(cfg, m, a, Normal(v1)).state;
      var m2 := Call(cfg, m1, b, Normal(v2)).state;
      var o3 := Call(cfg, m2, a, f3);
      var o4 := Call(cfg, o3.state, b, f4);
      && m1.calls == m.calls + 1
      && m2.calls == m.calls + 2
      && o3.result == Normal(v1)
      && o4.result == Normal(v2)
      && o4.state == m2
  {
    var ka := KeyOf(cfg, a).value;
    var m1 := Call(cfg, m, a, Normal(v1)).state;
    OtherKeysUntouched(cfg, m, a, Normal(v1), KeyOf(cfg, b).value);
    var m2 := Call(cfg, m1, b, Normal(v2)).state;
    OtherKeysUntouched(cfg, m1, b, Normal(v2), ka);
  }

  // ---------------------------------------------------------------------
  // Expiry
  // ---------------------------------------------------------------------

  /** In a wrapper whose `func` never returned `undefined`, a key that misses
      has no deletion pending. */
  lemma TidyMissIsUnscheduled(cfg: Config, m: State, k: Key)
    requires Tidy(cfg, m)
    requires !IsHit(m, k)
    ensures k !in KeysOf(m.timers)
  {
  }

  /** A value stored by a miss at time `t`, with no older deletion pending for
      its key, is present exactly while less than one timer delay has passed. */
  lemma ExpiryBoundary(cfg: Config, m: State, args: seq<JsVal>, v: JsVal, d: nat)
    requires KeyOf(cfg, args).Normal?
    requires !IsHit(m, KeyOf(cfg, args).value)
    requires KeyOf(cfg, args).value !in KeysOf(m.timers)
    requires !v.Undefined?
    ensures var k := KeyOf(cfg, args).value;
      var later := Advance(Call(cfg, m, args, Normal(v)).state, d);
      && (IsHit(later, k) <==> d < Delay(cfg.timeout))
      && (d < Delay(cfg.timeout) ==> Lookup(later, k) == v)
  {
    var k := KeyOf(cfg, args).value;
    var m1 := Call(cfg, m, args, Normal(v)).state;
    var t := m.now + d;
    var timer := Timer(m.now + Delay(cfg.timeout), k);
    assert m1.timers == m.timers + [timer];
    AdvanceFields(m1, d);
    DueMembers(m1.timers, t);
    InKeysOf(Due(m1.timers, t), k);
    InKeysOf(m.timers, k);
    if d < Delay(cfg.timeout) {
      assert k !in KeysOf(Due(m1.timers, t));
    } else {
      assert timer in Due(m1.timers, t);
    }
  }

  /** Before the timer delay has passed, the same call is served from the cache. */
  lemma ServedBeforeTimeout(cfg: Config, m: State, args: seq<JsVal>, v: JsVal, d: nat, func2: Completion<JsVal>)
    requires KeyOf(cfg, args).Normal?
    requires !IsHit(m, KeyOf(cfg, args).value)
    requires KeyOf(cfg, args).value !in KeysOf(m.timers)
    requires !v.Undefined?
    requires d < Delay(cfg.timeout)
    ensures var later := Advance(Call(cfg, m, args, Normal(v)).state, d);
      && Call(cfg, later, args, func2).result == Normal(v)
      && Call(cfg, later, args, func2).state.calls == m.calls + 1
  {
    ExpiryBoundary(cfg, m, args, v, d);
  }

  /** Once the timer delay has passed since a miss stored a value, the same
      call invokes `func` again, whatever was stored and whatever older
      deletions are pending. */
  lemma RecomputedAfterTimeout(cfg: Config, m: State, args: seq<JsVal>, v: JsVal, d: nat, func2: Completion<JsVal>)
    requires KeyOf(cfg, args).Normal?
    requires !IsHit(m, KeyOf(cfg, args).value)
    requires d >= Delay(cfg.timeout)
    ensures var later := Advance(Call(cfg, m, args, Normal(v)).state, d);
      && Call(cfg, later, args, func2).result == func2
      && Call(cfg, later, args, func2).state.calls == m.calls + 2
  {
    var k := KeyOf(cfg, args).value;
    var m1 := Call(cfg, m, args, Normal(v)).state;
    var timer := Timer(m.now + Delay(cfg.timeout), k);
    assert m1.timers == m.timers + [timer];
    DueDeletionIsUnconditional(m1, d, timer);
  }

  /** A due deletion removes its key whatever is stored there now, even a
      value stored after the deletion was scheduled. */
  lemma DueDeletionIsUnconditional(m: State, d: nat, x: Timer)
    requires x in m.timers
    requires x.deadline <= m.now + d
    ensures x.key !in Advance(m, d).cache
  {
    AdvanceFields(m, d);
    DueMembers(m.timers, m.now + d);
    InKeysOf(Due(m.timers, m.now + d), x.key);
  }

  /** Advancing the clock deletes only keys with a due deletion and leaves
      every surviving value as it was. */
  lemma AdvanceOnlyDeletes(m: State, d: nat, k: Key)
    requires k in m.cache
    requires forall x :: x in m.timers && x.key == k ==> x.deadline > m.now + d
    ensures k in Advance(m, d).cache && Advance(m, d).cache[k] == m.cache[k]
  {
    AdvanceFields(m, d);
    DueMembers(m.timers, m.now + d);
    InKeysOf(Due(m.timers, m.now + d), k);
  }
}
