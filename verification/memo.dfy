/** The wrapper that `memoize(func, timeout, resolver?)` returns, as a state
    machine over a virtual clock. A call either serves a stored value or
    invokes `func`, stores the result and schedules that key's deletion. The
    clock moves only through `Advance`, which fires the due deletions the way
    a fake-timer host does. */
module Memo {
  import opened JsValues
  import Json

  type Key = string

  /** A caller-supplied resolver: it sees the exact arguments and may throw.
      It is a fixed function of the arguments, so a repeated call resolves
      to the same key. */
  type Resolver = seq<JsVal> -> Completion<Key>

  /** The arguments of `memoize` other than `func`. */
  datatype Config = Config(timeout: nat, resolver: Option<Resolver>)

  /** The longest delay a timer host keeps: 2^31 - 1 ms. */
  const MaxDelay: nat := 0x7FFF_FFFF

  /** How long the host actually waits for `setTimeout(callback, timeout)`:
      a requested delay beyond `MaxDelay` does not fit the host's 32-bit
      delay and is replaced by 1 ms. */
  function Delay(timeout: nat): (d: nat)
    ensures d <= timeout
    ensures timeout <= MaxDelay ==> d == timeout
    ensures MaxDelay < timeout ==> d == 1
    ensures 0 < timeout ==> 0 < d
  {
    if timeout > MaxDelay then 1 else timeout
  }

  /** A one-shot `setTimeout` callback that deletes `key` at `deadline`. */
  datatype Timer = Timer(deadline: int, key: Key)

  /** One wrapper's state: the clock, its `cache` object, its pending
      deletions in the order they were scheduled, and how often `func` has
      been invoked. */
  datatype State = State(now: int, cache: map<Key, JsVal>, timers: seq<Timer>, calls: nat)

  /** A call's new state and what the caller sees: a value, or an exception. */
  datatype Outcome = Outcome(state: State, result: Completion<JsVal>)

  /** The state right after `memoize` returns: an empty cache of its own. */
  function Fresh(now: int): (m: State)
    ensures m.now == now && m.cache == map[] && m.timers == [] && m.calls == 0
  {
    State(now, map[], [], 0)
  }

  // ---------------------------------------------------------------------
  // Calls
  // ---------------------------------------------------------------------

  /** The cache key: the resolver's result if there is a resolver, otherwise
      the serialisation of the whole argument list. */
  function KeyOf(cfg: Config, args: seq<JsVal>): Completion<Key> {
    match cfg.resolver
    case None => Normal(Json.Serialize(args))
    case Some(resolve) => resolve(args)
  }

  /** Reading a missing property of the cache object yields `undefined`. */
  function Lookup(m: State, k: Key): JsVal {
    if k in m.cache then m.cache[k] else Undefined
  }

  /** A hit is any stored value other than `undefined`; `null` is a hit. */
  predicate IsHit(m: State, k: Key) {
    !Lookup(m, k).Undefined?
  }

  /** One call of the wrapper with arguments `args`. `func` stands for what
      the wrapped function does when invoked now; it is consulted only on a
      miss. */
  function Call(cfg: Config, m: State, args: seq<JsVal>, func: Completion<JsVal>): (o: Outcome)
    ensures o.state.now == m.now
    ensures o.state.calls == m.calls || o.state.calls == m.calls + 1
    ensures m.cache.Keys <= o.state.cache.Keys
    ensures o.state.timers == m.timers || (KeyOf(cfg, args).Normal? && o.state.timers == m.timers + [Timer(m.now + Delay(cfg.timeout), KeyOf(cfg, args).value)])
    ensures o.result.Normal? && !o.result.value.Undefined? ==> KeyOf(cfg, args).Normal? && IsHit(o.state, KeyOf(cfg, args).value)
  {
    match KeyOf(cfg, args)
    case Throw(e) => Outcome(m, Throw(e))
    case Normal(k) =>
      if IsHit(m, k) then Outcome(m, Normal(m.cache[k]))
      else
        var invoked := m.(calls := m.calls + 1);
        match func
        case Throw(e) => Outcome(invoked, Throw(e))
        case Normal(v) =>
          Outcome(invoked.(cache := m.cache[k := v], timers := m.timers + [Timer(m.now + Delay(cfg.timeout), k)]), Normal(v))
  }

  // ---------------------------------------------------------------------
  // Timers
  // ---------------------------------------------------------------------

  /** The keys that pending deletions will remove. */
  function KeysOf(ts: seq<Timer>): set<Key> {
    set i | 0 <= i < |ts| :: ts[i].key
  }

  /** The callback of one timer: it deletes its own key, whatever is stored there. */
  function FireOne(c: map<Key, JsVal>, t: Timer): (r: map<Key, JsVal>)
    ensures t.key !in r
    ensures forall k :: k != t.key ==> (k in r <==> k in c)
    ensures forall k :: k in r ==> r[k] == c[k]
  {
    c - {t.key}
  }

  /** Runs the callbacks of `ts` one after the other. */
  function Fire(c: map<Key, JsVal>, ts: seq<Timer>): (r: map<Key, JsVal>)
    ensures r.Keys == c.Keys - KeysOf(ts)
    ensures forall k :: k in r ==> r[k] == c[k]
  {
    if ts == [] then c
    else
      assert KeysOf(ts) == {ts[0].key} + KeysOf(ts[1..]) by {
        forall k | k in KeysOf(ts) ensures k in {ts[0].key} + KeysOf(ts[1..]) {
          var i :| 0 <= i < |ts| && ts[i].key == k;
          if i > 0 { assert ts[1..][i - 1].key == k; }
        }
        forall k | k in KeysOf(ts[1..]) ensures k in KeysOf(ts) {
          var i :| 0 <= i < |ts[1..]| && ts[1..][i].key == k;
          assert ts[i + 1].key == k;
        }
      }
      Fire(FireOne(c, ts[0]), ts[1..])
  }

  /** The timers due by time `t`, in the order they were scheduled. */
  function Due(ts: seq<Timer>, t: int): (r: seq<Timer>)
  {
    if ts == [] then []
    else if ts[0].deadline <= t then [ts[0]] + Due(ts[1..], t)
    else Due(ts[1..], t)
  }

  /** The timers still waiting after time `t`, in the order they were scheduled. */
  function Pending(ts: seq<Timer>, t: int): (r: seq<Timer>)
  {
    if ts == [] then []
    else if ts[0].deadline > t then [ts[0]] + Pending(ts[1..], t)
    else Pending(ts[1..], t)
  }

  lemma {:induction false} DueMembers(ts: seq<Timer>, t: int)
    ensures forall x :: x in Due(ts, t) <==> x in ts && x.deadline <= t
    decreases |ts|
  {
    if ts != [] {
      DueMembers(ts[1..], t);
      assert ts == [ts[0]] + ts[1..];
    }
  }

  lemma {:induction false} PendingMembers(ts: seq<Timer>, t: int)
    ensures forall x :: x in Pending(ts, t) <==> x in ts && x.deadline > t
    decreases |ts|
  {
    if ts != [] {
      PendingMembers(ts[1..], t);
      assert ts == [ts[0]] + ts[1..];
    }
  }

  /** Moves the clock forward by `d` ms; every deletion due by the new time
      runs, and nothing else changes. Calls made meanwhile are separate steps. */
  function Advance(m: State, d: nat): (m': State)
    ensures m'.now == m.now + d
    ensures m'.calls == m.calls
  {
    State(m.now + d, Fire(m.cache, Due(m.timers, m.now + d)), Pending(m.timers, m.now + d), m.calls)
  }

  // ---------------------------------------------------------------------
  // Invariants of reachable states
  // ---------------------------------------------------------------------

  ghost predicate Sorted(ts: seq<Timer>) {
    forall i, j :: 0 <= i < j < |ts| ==> ts[i].deadline <= ts[j].deadline
  }

  /** What holds of every state a wrapper can reach: the deletions are
      scheduled in deadline order, each falls within one timer delay of now, and
      every stored key has a deletion pending. */
  ghost predicate Valid(cfg: Config, m: State) {
    && Sorted(m.timers)
    && (forall i :: 0 <= i < |m.timers| ==> m.now <= m.timers[i].deadline <= m.now + Delay(cfg.timeout))
    && m.cache.Keys <= KeysOf(m.timers)
  }

  /** The stronger invariant of a wrapper whose `func` never returned
      `undefined`: nothing stored is `undefined`, and every stored key has
      exactly one pending deletion and no other key has any. */
  ghost predicate Tidy(cfg: Config, m: State) {
    && Valid(cfg, m)
    && (forall k :: k in m.cache ==> !m.cache[k].Undefined?)
    && m.cache.Keys == KeysOf(m.timers)
    && DistinctKeys(m.timers)
  }

  ghost predicate DistinctKeys(ts: seq<Timer>) {
    forall i, j :: 0 <= i < j < |ts| ==> ts[i].key != ts[j].key
  }

  lemma FreshIsTidy(cfg: Config, now: int)
    ensures Tidy(cfg, Fresh(now))
  {
  }

  lemma KeysOfAppend(ts: seq<Timer>, t: Timer)
    ensures KeysOf(ts + [t]) == KeysOf(ts) + {t.key}
  {
    var ts' := ts + [t];
    forall k | k in KeysOf(ts') ensures k in KeysOf(ts) + {t.key} {
      var i :| 0 <= i < |ts'| && ts'[i].key == k;
      if i < |ts| { assert ts[i].key == k; }
    }
    forall k | k in KeysOf(ts) ensures k in KeysOf(ts') {
      var i :| 0 <= i < |ts| && ts[i].key == k;
      assert ts'[i].key == k;
    }
    assert ts'[|ts|].key == t.key;
  }

  lemma KeysOfMembers(ts: seq<Timer>, ts': seq<Timer>)
    requires forall x :: x in ts' <==> x in ts
    ensures KeysOf(ts') == KeysOf(ts)
  {
    forall k | k in KeysOf(ts) ensures k in KeysOf(ts') {
      var i :| 0 <= i < |ts| && ts[i].key == k;
      assert ts[i] in ts';
    }
    forall k | k in KeysOf(ts') ensures k in KeysOf(ts) {
      var i :| 0 <= i < |ts'| && ts'[i].key == k;
      assert ts'[i] in ts;
    }
  }

  /** `k` has a pending deletion exactly when some timer names it. */
  lemma InKeysOf(ts: seq<Timer>, k: Key)
    ensures k in KeysOf(ts) <==> exists x :: x in ts && x.key == k
  {
    if exists x :: x in ts && x.key == k {
      var x :| x in ts && x.key == k;
      var i :| 0 <= i < |ts| && ts[i] == x;
    }
  }

  lemma {:induction false} NoneDue(ts: seq<Timer>, t: int)
    requires forall i :: 0 <= i < |ts| ==> ts[i].deadline > t
    ensures Due(ts, t) == [] && Pending(ts, t) == ts
    decreases |ts|
  {
    if ts != [] {
      NoneDue(ts[1..], t);
      assert ts == [ts[0]] + ts[1..];
    }
  }

  lemma {:induction false} DueThenPending(ts: seq<Timer>, t: int)
    requires Sorted(ts)
    ensures ts == Due(ts, t) + Pending(ts, t)
    decreases |ts|
  {
    if ts != [] {
      if ts[0].deadline > t {
        NoneDue(ts, t);
      } else {
        DueThenPending(ts[1..], t);
        assert ts == [ts[0]] + ts[1..];
      }
    }
  }

  /** The deletions due by time `t` are a prefix of the schedule, so running
      them in scheduled order runs them in deadline order, ties in the order
      they were scheduled. */
  lemma DueIsPrefixInDeadlineOrder(ts: seq<Timer>, t: int)
    requires Sorted(ts)
    ensures exists n :: 0 <= n <= |ts| && Due(ts, t) == ts[..n] && Pending(ts, t) == ts[n..]
    ensures Sorted(Due(ts, t))
  {
    DueThenPending(ts, t);
    var n := |Due(ts, t)|;
    assert Due(ts, t) == ts[..n] && Pending(ts, t) == ts[n..];
  }

  lemma CallPreservesValid(cfg: Config, m: State, args: seq<JsVal>, func: Completion<JsVal>)
    requires Valid(cfg, m)
    ensures Valid(cfg, Call(cfg, m, args, func).state)
  {
    var o := Call(cfg, m, args, func);
    if o.state.timers != m.timers {
      var k := KeyOf(cfg, args).value;
      KeysOfAppend(m.timers, Timer(m.now + Delay(cfg.timeout), k));
    }
  }

  lemma PendingSorted(ts: seq<Timer>, t: int)
    requires Sorted(ts)
    ensures Sorted(Pending(ts, t))
  {
    DueIsPrefixInDeadlineOrder(ts, t);
  }

  /** A key that survives an advance still has a deletion pending. */
  lemma SurvivorsStayScheduled(m: State, t: int, k: Key)
    requires m.cache.Keys <= KeysOf(m.timers)
    requires k in Fire(m.cache, Due(m.timers, t))
    ensures k in KeysOf(Pending(m.timers, t))
  {
    InKeysOf(m.timers, k);
    var x :| x in m.timers && x.key == k;
    DueMembers(m.timers, t);
    PendingMembers(m.timers, t);
    if x.deadline <= t {
      InKeysOf(Due(m.timers, t), k);
    } else {
      InKeysOf(Pending(m.timers, t), k);
    }
  }

  lemma AdvancePreservesValid(cfg: Config, m: State, d: nat)
    requires Valid(cfg, m)
    ensures Valid(cfg, Advance(m, d))
  {
    var t := m.now + d;
    var ts' := Pending(m.timers, t);
    var c' := Fire(m.cache, Due(m.timers, t));
    assert Advance(m, d) == State(t, c', ts', m.calls);
    PendingSorted(m.timers, t);
    PendingMembers(m.timers, t);
    assert forall i :: 0 <= i < |ts'| ==> t <= ts'[i].deadline <= t + Delay(cfg.timeout) by {
      forall i | 0 <= i < |ts'| ensures t <= ts'[i].deadline <= t + Delay(cfg.timeout) {
        assert ts'[i] in m.timers;
      }
    }
    assert c'.Keys <= KeysOf(ts') by {
      forall k | k in c' ensures k in KeysOf(ts') {
        SurvivorsStayScheduled(m, t, k);
      }
    }
  }

  /** The deletions due by `t2` are those due by `t1` and then those of the
      rest due by `t2`. */
  lemma DueInSteps(ts: seq<Timer>, t1: int, t2: int)
    requires t1 <= t2
    ensures KeysOf(Due(ts, t2)) == KeysOf(Due(ts, t1)) + KeysOf(Due(Pending(ts, t1), t2))
  {
    DueMembers(ts, t1);
    DueMembers(ts, t2);
    PendingMembers(ts, t1);
    DueMembers(Pending(ts, t1), t2);
    KeysOfMembers(Due(ts, t2), Due(ts, t1) + Due(Pending(ts, t1), t2));
    KeysOfConcat(Due(ts, t1), Due(Pending(ts, t1), t2));
  }

  /** The clock can move in steps or at once: advancing by `a` and then by
      `b` is advancing by `a + b`. */
  lemma AdvanceAdditive(m: State, a: nat, b: nat)
    ensures Advance(Advance(m, a), b) == Advance(m, a + b)
  {
    AdvanceCacheAdditive(m, a, b);
    AdvanceTimersAdditive(m, a, b);
  }

  lemma AdvanceCacheAdditive(m: State, a: nat, b: nat)
    ensures Advance(Advance(m, a), b).cache == Advance(m, a + b).cache
  {
    var t1 := m.now + a;
    var t2 := t1 + b;
    var c1 := Fire(m.cache, Due(m.timers, t1));
    var ts1 := Pending(m.timers, t1);
    assert Advance(m, a) == State(t1, c1, ts1, m.calls);
    assert Advance(State(t1, c1, ts1, m.calls), b) == State(t2, Fire(c1, Due(ts1, t2)), Pending(ts1, t2), m.calls);
    assert Advance(m, a + b) == State(t2, Fire(m.cache, Due(m.timers, t2)), Pending(m.timers, t2), m.calls);
    FireInSteps(m.cache, m.timers, t1, t2);
  }

  lemma AdvanceTimersAdditive(m: State, a: nat, b: nat)
    ensures Advance(Advance(m, a), b).timers == Advance(m, a + b).timers
  {
    var t1 := m.now + a;
    AdvanceFields(m, a);
    AdvanceFields(Advance(m, a), b);
    AdvanceFields(m, a + b);
    PendingPending(m.timers, t1, t1 + b);
  }

  lemma AdvanceFields(m: State, d: nat)
    ensures Advance(m, d).cache == Fire(m.cache, Due(m.timers, m.now + d))
    ensures Advance(m, d).timers == Pending(m.timers, m.now + d)
  {
  }

  lemma FireInSteps(c: map<Key, JsVal>, ts: seq<Timer>, t1: int, t2: int)
    requires t1 <= t2
    ensures Fire(Fire(c, Due(ts, t1)), Due(Pending(ts, t1), t2)) == Fire(c, Due(ts, t2))
  {
    var c2 := Fire(Fire(c, Due(ts, t1)), Due(Pending(ts, t1), t2));
    var c3 := Fire(c, Due(ts, t2));
    DueInSteps(ts, t1, t2);
    SubmapsWithSameKeys(c, c2, c3);
  }

  lemma SubmapsWithSameKeys(c: map<Key, JsVal>, x: map<Key, JsVal>, y: map<Key, JsVal>)
    requires x.Keys == y.Keys
    requires forall k :: k in x ==> k in c && x[k] == c[k]
    requires forall k :: k in y ==> k in c && y[k] == c[k]
    ensures x == y
  {
  }

  lemma {:induction false} PendingPending(ts: seq<Timer>, t1: int, t2: int)
    requires t1 <= t2
    ensures Pending(Pending(ts, t1), t2) == Pending(ts, t2)
    decreases |ts|
  {
    if ts != [] {
      PendingPending(ts[1..], t1, t2);
    }
  }

  lemma KeysOfConcat(a: seq<Timer>, b: seq<Timer>)
    ensures KeysOf(a + b) == KeysOf(a) + KeysOf(b)
  {
    var ab := a + b;
    forall k | k in KeysOf(ab) ensures k in KeysOf(a) + KeysOf(b) {
      var i :| 0 <= i < |ab| && ab[i].key == k;
      if i < |a| { assert a[i].key == k; } else { assert b[i - |a|].key == k; }
    }
    forall k | k in KeysOf(a) ensures k in KeysOf(ab) {
      var i :| 0 <= i < |a| && a[i].key == k;
      assert ab[i].key == k;
    }
    forall k | k in KeysOf(b) ensures k in KeysOf(ab) {
      var i :| 0 <= i < |b| && b[i].key == k;
      assert ab[|a| + i].key == k;
    }
  }

  lemma {:induction false} AllDue(ts: seq<Timer>, t: int)
    requires forall i :: 0 <= i < |ts| ==> ts[i].deadline <= t
    ensures Due(ts, t) == ts && Pending(ts, t) == []
    decreases |ts|
  {
    if ts != [] {
      AllDue(ts[1..], t);
      assert ts == [ts[0]] + ts[1..];
    }
  }

  /** No entry outlives the timer delay: one delay after any reachable state,
      the cache is empty and no deletion is left pending. */
  lemma AllExpireWithinTimeout(cfg: Config, m: State)
    requires Valid(cfg, m)
    ensures Advance(m, Delay(cfg.timeout)).cache == map[]
    ensures Advance(m, Delay(cfg.timeout)).timers == []
  {
    var d := Delay(cfg.timeout);
    assert forall i :: 0 <= i < |m.timers| ==> m.timers[i].deadline <= m.now + d;
    AdvancePastAllDeadlines(m, d);
  }

  /** Once the clock passes every deadline, every scheduled deletion has run. */
  lemma AdvancePastAllDeadlines(m: State, d: nat)
    requires m.cache.Keys <= KeysOf(m.timers)
    requires forall i :: 0 <= i < |m.timers| ==> m.timers[i].deadline <= m.now + d
    ensures Advance(m, d).cache == map[]
    ensures Advance(m, d).timers == []
  {
    AllDue(m.timers, m.now + d);
    AdvanceFields(m, d);
    var c := Fire(m.cache, m.timers);
    assert c == map[] by {
      assert c.Keys == {};
    }
    assert Due(m.timers, m.now + d) == m.timers;
    assert Advance(m, d).cache == c;
  }

  lemma CallPreservesTidy(cfg: Config, m: State, args: seq<JsVal>, func: Completion<JsVal>)
    requires Tidy(cfg, m)
    requires func.Normal? ==> !func.value.Undefined?
    ensures Tidy(cfg, Call(cfg, m, args, func).state)
  {
    CallPreservesValid(cfg, m, args, func);
    var o := Call(cfg, m, args, func);
    if o.state.timers != m.timers {
      var t := Timer(m.now + Delay(cfg.timeout), KeyOf(cfg, args).value);
      KeysOfAppend(m.timers, t);
      assert t.key !in KeysOf(m.timers);
      AppendKeepsDistinct(m.timers, t);
    }
  }

  lemma AppendKeepsDistinct(ts: seq<Timer>, t: Timer)
    requires DistinctKeys(ts)
    requires t.key !in KeysOf(ts)
    ensures DistinctKeys(ts + [t])
  {
    var ts' := ts + [t];
    forall i, j | 0 <= i < j < |ts'| ensures ts'[i].key != ts'[j].key {
      if j == |ts| {
        assert ts'[i].key == ts[i].key;
      }
    }
  }

  lemma PendingKeys(ts: seq<Timer>, t: int)
    requires DistinctKeys(ts)
    ensures KeysOf(Pending(ts, t)) == KeysOf(ts) - KeysOf(Due(ts, t))
  {
    DueMembers(ts, t);
    PendingMembers(ts, t);
    forall k | k in KeysOf(Pending(ts, t)) ensures k in KeysOf(ts) - KeysOf(Due(ts, t)) {
      InKeysOf(Pending(ts, t), k);
      var x :| x in Pending(ts, t) && x.key == k;
      InKeysOf(ts, k);
      InKeysOf(Due(ts, t), k);
    }
    forall k | k in KeysOf(ts) - KeysOf(Due(ts, t)) ensures k in KeysOf(Pending(ts, t)) {
      InKeysOf(ts, k);
      var x :| x in ts && x.key == k;
      InKeysOf(Due(ts, t), k);
      InKeysOf(Pending(ts, t), k);
    }
  }

  lemma PendingDistinct(ts: seq<Timer>, t: int)
    requires Sorted(ts) && DistinctKeys(ts)
    ensures DistinctKeys(Pending(ts, t))
  {
    DueThenPending(ts, t);
    var n := |Due(ts, t)|;
    var ts' := Pending(ts, t);
    assert ts' == ts[n..];
    forall i, j | 0 <= i < j < |ts'| ensures ts'[i].key != ts'[j].key {
      assert ts'[i] == ts[n + i] && ts'[j] == ts[n + j];
    }
  }

  lemma AdvancePreservesTidy(cfg: Config, m: State, d: nat)
    requires Tidy(cfg, m)
    ensures Tidy(cfg, Advance(m, d))
  {
    var t := m.now + d;
    var m' := Advance(m, d);
    AdvancePreservesValid(cfg, m, d);
    AdvanceFields(m, d);
    assert m'.cache.Keys == KeysOf(m'.timers) by {
      PendingKeys(m.timers, t);
    }
    assert DistinctKeys(m'.timers) by {
      PendingDistinct(m.timers, t);
    }
  }
}
