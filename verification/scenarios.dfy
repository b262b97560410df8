/** The situations the repository's tests walk through, and one they do not:
    a value stored after an `undefined` result is deleted early. */
module Scenarios {
  import opened JsValues
  import opened Memo
  import opened MemoProperties

  const TestArg: string := "c544d3ae-a72d-4755-8ce5-d25db415b776"
  const OtherArg: string := "c544d3ae-a72d-4755-8ce5"

  /** The tests' resolver `(key) => key`, on the string arguments they pass. */
  function KeyIsFirstArgument(args: seq<JsVal>): Completion<Key> {
    if |args| > 0 && args[0].Str? then Normal(args[0].s) else Normal("")
  }

  /** `memoize(mock, 1000, (key) => key)` */
  const WithResolver: Config := Config(1000, Some(KeyIsFirstArgument))

  /** `memoize(mock, 1000)` */
  const WithoutResolver: Config := Config(1000, None)

  /** A mock returning 5 and then 10: the second call is served from the
      cache, with or without a resolver. */
  lemma RepeatedCallServedFromCache(cfg: Config, now: int)
    requires cfg == WithResolver || cfg == WithoutResolver
    ensures var o1 := Call(cfg, Fresh(now), [Str(TestArg)], Normal(Num(5)));
      var o2 := Call(cfg, o1.state, [Str(TestArg)], Normal(Num(10)));
      && o1.result == Normal(Num(5)) && o2.result == Normal(Num(5))
      && o2.state.calls == 1
  {
    SecondCallHits(cfg, Fresh(now), [Str(TestArg)], Normal(Num(5)), Normal(Num(10)));
  }

  /** A mock returning `null` and then 10: both calls see `null`. */
  lemma NullResultServedFromCache(now: int)
    ensures var o1 := Call(WithResolver, Fresh(now), [Str(TestArg)], Normal(Null));
      var o2 := Call(WithResolver, o1.state, [Str(TestArg)], Normal(Num(10)));
      && o1.result == Normal(Null) && o2.result == Normal(Null)
      && o2.state.calls == 1
  {
    SecondCallHits(WithResolver, Fresh(now), [Str(TestArg)], Normal(Null), Normal(Num(10)));
  }

  /** Two arguments: the first is computed once and served again, the second
      is computed separately. */
  lemma DifferentArgumentsComputedSeparately(now: int)
    ensures var o1 := Call(WithResolver, Fresh(now), [Str(TestArg)], Normal(Num(5)));
      var o2 := Call(WithResolver, o1.state, [Str(TestArg)], Normal(Num(10)));
      var o3 := Call(WithResolver, o2.state, [Str(OtherArg)], Normal(Num(10)));
      && o1.result == Normal(Num(5)) && o1.state.calls == 1
      && o2.result == Normal(Num(5)) && o2.state.calls == 1
      && o3.result == Normal(Num(10)) && o3.state.calls == 2
  {
    var m := Fresh(now);
    var o1 := Call(WithResolver, m, [Str(TestArg)], Normal(Num(5)));
    SecondCallHits(WithResolver, m, [Str(TestArg)], Normal(Num(5)), Normal(Num(10)));
    assert TestArg != OtherArg by { assert |TestArg| != |OtherArg|; }
    MissInvokesFuncOnce(WithResolver, o1.state, [Str(OtherArg)], Normal(Num(10)), OtherArg);
  }

  /** Timeout 1000: still served after 999 ms, recomputed after 1000 ms. */
  lemma ServedAt999RecomputedAt1000(now: int)
    ensures var args := [Str(TestArg)];
      var o1 := Call(WithResolver, Fresh(now), args, Normal(Num(5)));
      var o2 := Call(WithResolver, Advance(o1.state, 999), args, Normal(Num(10)));
      var o3 := Call(WithResolver, Advance(o2.state, 1), args, Normal(Num(10)));
      && o1.result == Normal(Num(5)) && o1.state.calls == 1
      && o2.result == Normal(Num(5)) && o2.state.calls == 1
      && o3.result == Normal(Num(10)) && o3.state.calls == 2
  {
    var args := [Str(TestArg)];
    var m := Fresh(now);
    var o1 := Call(WithResolver, m, args, Normal(Num(5)));
    ServedBeforeTimeout(WithResolver, m, args, Num(5), 999, Normal(Num(10)));
    ExpiryBoundary(WithResolver, m, args, Num(5), 999);
    var o2 := Call(WithResolver, Advance(o1.state, 999), args, Normal(Num(10)));
    assert o2.state == Advance(o1.state, 999);
    AdvanceAdditive(o1.state, 999, 1);
    RecomputedAfterTimeout(WithResolver, m, args, Num(5), 1000, Normal(Num(10)));
  }

  /** `memoize(mock, 2 ** 31)`: the requested timeout does not fit the
      host's delay, so the entry is deleted after 1 ms, not after 24 days. */
  lemma OverlongTimeoutExpiresAfter1ms(now: int)
    ensures var cfg := Config(0x8000_0000, None);
      var args := [Str(TestArg)];
      var o1 := Call(cfg, Fresh(now), args, Normal(Num(5)));
      var o2 := Call(cfg, Advance(o1.state, 1), args, Normal(Num(10)));
      && o1.result == Normal(Num(5))
      && o2.result == Normal(Num(10)) && o2.state.calls == 2
  {
    var cfg := Config(0x8000_0000, None);
    assert Delay(cfg.timeout) == 1;
    RecomputedAfterTimeout(cfg, Fresh(now), [Str(TestArg)], Num(5), 1, Normal(Num(10)));
  }

  /** `func` first returns `undefined` at time 0 and 5 at time 500. The
      deletion scheduled by the first call fires at 1000 and removes the 5,
      which was stored only 500 ms earlier; the next call recomputes. */
  lemma RestoredValueDeletedByOlderTimer(func4: Completion<JsVal>)
    ensures var args := [Str("a")];
      var o1 := Call(WithoutResolver, Fresh(0), args, Normal(Undefined));
      var o2 := Call(WithoutResolver, Advance(o1.state, 500), args, Normal(Num(5)));
      var o3 := Call(WithoutResolver, Advance(o2.state, 499), args, Normal(Num(7)));
      var o4 := Call(WithoutResolver, Advance(o2.state, 500), args, func4);
      && o2.result == Normal(Num(5)) && o2.state.calls == 2
      && o3.result == Normal(Num(5)) && o3.state.calls == 2
      && o4.result == func4 && o4.state.calls == 3
  {
    var args := [Str("a")];
    var k := KeyOf(WithoutResolver, args).value;
    var o1 := Call(WithoutResolver, Fresh(0), args, Normal(Undefined));
    var m1 := Advance(o1.state, 500);
    AdvanceFields(o1.state, 500);
    assert Due(o1.state.timers, 500) == [];
    var o2 := Call(WithoutResolver, m1, args, Normal(Num(5)));
    assert o2.state.timers == [Timer(1000, k), Timer(1500, k)];
    AdvanceOnlyDeletes(o2.state, 499, k);
    DueDeletionIsUnconditional(o2.state, 500, Timer(1000, k));
  }
}
