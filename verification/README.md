# memoize with expiry, in Dafny

This project models `memoize(func, timeout, resolver?)` from
`src/memoization.ts`. The function wraps `func` in a closure. The closure
owns a plain-object cache keyed by strings. Each stored result is deleted
by a one-shot `setTimeout` that runs `timeout` ms after the result was
stored (see `Memo.Delay` for timeouts the host cannot hold).

The model is a functional state machine:

- `Memo.State` holds a virtual clock, the cache (`map<string, JsVal>`),
  the pending deletions in the order they were scheduled, and a counter of
  how often `func` has been invoked.
- `Memo.Call` is one call of the wrapper. It derives the key, serves a hit,
  or invokes `func`, stores the result and schedules that key's deletion.
  `func` is an oracle argument: the value it would return, or the exception
  it would throw, if invoked now. It is consulted only on a miss.
- `Memo.Advance` moves the clock. Every deletion due by the new time runs,
  in deadline order. This is the behaviour of the fake timers the tests use.
- `JsValues.JsVal` distinguishes `undefined` from `null`. `undefined` is
  the cache's "nothing stored" marker (`memoizedValue !== undefined`). A
  stored `null` is a hit.
- `Json.Serialize` is `JSON.stringify` of the argument array, the key when
  there is no resolver, for arguments whose numbers are safe integers
  (|n| <= 2^53 - 1). `Json.Parse` reads such text back. It is the
  partner used to prove exactly which argument lists share a key: among
  the modelled values, the key keeps every argument in order and loses
  only the difference between `undefined` and `null`.
- `Memo.Delay` is how long the timer host actually waits. A timeout above
  2^31 - 1 ms does not fit the host's 32-bit delay, and the deletion then
  runs after 1 ms. Every deadline in the model uses this effective delay.
- `Host` holds several wrappers on one clock. It shows that each `memoize`
  call gets its own cache.

Where the doc comment and the code disagree, the model follows the code:

- The comment at `src/memoization.ts:10` says the default key is the first
  argument. The code serialises the whole argument list (line 45).
  `MemoProperties.DefaultKeyIsNotFirstArgument` states the difference.
- The example at lines 13-27 passes the resolver before the timeout. The
  signature at lines 34-38 takes them the other way round. The model uses
  the signature.

A consequence of the code as written: a call whose `func` returns
`undefined` still stores it and schedules a deletion. That deletion later
removes whatever is stored under the key, even a value stored after it.
`Scenarios.RestoredValueDeletedByOlderTimer` shows a value that lives only
500 ms under a 1000 ms timeout. The lemmas that promise a value is still
served (`MemoProperties.ExpiryBoundary`, `MemoProperties.ServedBeforeTimeout`)
therefore assume that no older deletion is pending for the key; the
promise that it is gone (`MemoProperties.RecomputedAfterTimeout`) does not. `Memo.Tidy` is the
invariant of a wrapper whose `func` never returned `undefined`, and it
guarantees that assumption (`MemoProperties.TidyMissIsUnscheduled`).

## Model

| member | source | states |
|---|---|---|
| Memo.Fresh | src/memoization.ts:40 | A new wrapper starts at the current time with an empty cache, no pending deletions and no invocations of `func`. |
| Memo.Call | src/memoization.ts:42-65 | A call never moves the clock. It invokes `func` at most once and never removes an entry. It leaves the deletions as they were or appends exactly one for its own key, one effective delay from now. If it returns a value other than `undefined`, that key is afterwards a hit. |
| Memo.Delay | src/memoization.ts:59-62 | The effective delay equals the requested timeout up to 2^31 - 1 ms and is exactly 1 ms above that; it never exceeds the timeout and is positive whenever the timeout is. |
| Memo.Advance | src/memoization.ts:59-62 | Moves the clock by d and leaves the invocation count unchanged. |
| Memo.FireOne | src/memoization.ts:60-62 | A deletion callback removes its own key and leaves every other entry exactly as it was. |
| Memo.Fire | src/memoization.ts:60-62 | Running a list of deletions removes exactly the keys they name and keeps every surviving value unchanged. |
| Memo.DueIsPrefixInDeadlineOrder | src/memoization.ts:59-62 | In a sorted schedule, the deletions due by a time form a prefix. Running them in scheduled order therefore runs them in deadline order. |
| Memo.AdvanceAdditive | src/memoization.ts:59-62 | Advancing the clock by a and then by b is the same as advancing it by a + b. |
| Memo.FreshIsTidy | src/memoization.ts:40 | The empty wrapper satisfies the invariants. |
| Memo.CallPreservesValid | src/memoization.ts:56-62 | A call keeps the schedule sorted, within one effective delay of now, and covering every stored key. |
| Memo.AdvancePreservesValid | src/memoization.ts:59-62 | Advancing the clock keeps those invariants. |
| Memo.AllExpireWithinTimeout | src/memoization.ts:59-62 | One effective delay after any reachable state, the cache is empty and no deletion is pending. |
| Memo.CallPreservesTidy | src/memoization.ts:48-62 | If `func` does not return `undefined`, a call keeps the stronger invariant: stored keys and pending deletions match one to one. |
| Memo.AdvancePreservesTidy | src/memoization.ts:59-62 | Advancing the clock keeps that stronger invariant. |
| Json.ParseSerialize | src/memoization.ts:44-45 | Reading the default key back yields the argument list with each `undefined` turned into `null`. |
| Json.SerializeEqualIff | src/memoization.ts:44-45 | Two argument lists get the same default key if and only if they agree once `undefined` is read as `null`. |
| MemoProperties.HitServesStoredValue | src/memoization.ts:48-54 | On a hit the call returns the stored value and changes nothing, whatever `func` would do. |
| MemoProperties.MissInvokesFuncOnce | src/memoization.ts:56-64 | On a miss the call counts one invocation and returns `func`'s outcome. A returned value is stored under the key with one deletion scheduled one effective delay from now, and every other key is unchanged. |
| MemoProperties.FailureStoresNothing | src/memoization.ts:56-57 | If `func` throws, the exception propagates and nothing is stored or scheduled. |
| MemoProperties.ResolverErrorChangesNothing | src/memoization.ts:44-45 | If the resolver throws, the exception propagates, `func` is not invoked and the state is unchanged. |
| MemoProperties.OtherKeysUntouched | src/memoization.ts:57 | A call never changes the entry, or the hit status, of a different key. |
| MemoProperties.SecondCallHits | src/memoization.ts:48-57 | After a call returned a value other than `undefined`, an immediate repeat returns the same value without invoking `func`. This includes `null`. |
| MemoProperties.UndefinedIsNeverAHit | src/memoization.ts:50-52 | After `func` returned `undefined`, the next call with the same key invokes `func` again. |
| MemoProperties.FailureIsRetried | src/memoization.ts:56-57 | After `func` threw, the next call with the same key invokes it again. |
| MemoProperties.DefaultKeyIsWholeArgumentList | src/memoization.ts:44-45 | Without a resolver, two calls share an entry if and only if their whole argument lists agree, with `undefined` read as `null`. |
| MemoProperties.DefaultKeyIsNotFirstArgument | src/memoization.ts:10 | Contrary to the doc comment, calls that share a first argument get different default keys whenever their argument lists still differ once `undefined` is read as `null`; `f(1, 2)` and `f(1, 3)` are one such pair. |
| MemoProperties.DefaultKeyConflatesUndefinedAndNull | src/memoization.ts:45 | `[undefined]` and `[null]` get the same default key. |
| MemoProperties.DistinctKeysCachedSeparately | test/memoization.test.ts:82-113 | Two calls with different keys invoke `func` once each. Repeating either call then serves its own value and changes nothing. |
| MemoProperties.TidyMissIsUnscheduled | src/memoization.ts:56-62 | Under the stronger invariant, a key that misses has no deletion pending. |
| MemoProperties.ExpiryBoundary | src/memoization.ts:59-62 | With no older deletion pending for the key, a value stored now is a hit after d ms if and only if d is below the effective delay, and it keeps its value until then. |
| MemoProperties.ServedBeforeTimeout | test/memoization.test.ts:132-137 | Before the effective delay has passed, the repeated call returns the stored value and `func` is not invoked. |
| MemoProperties.RecomputedAfterTimeout | test/memoization.test.ts:160-166 | Once the effective delay has passed since a miss stored a value, the repeated call invokes `func` again and returns its new outcome, whatever was stored and whatever older deletions are pending. |
| MemoProperties.DueDeletionIsUnconditional | src/memoization.ts:60-62 | A due deletion removes its key whatever is stored there, even a value stored after it was scheduled. |
| MemoProperties.AdvanceOnlyDeletes | src/memoization.ts:59-62 | A key with no due deletion keeps its value when the clock advances. |
| Host.Memoize | src/memoization.ts:34-42 | Each `memoize` call adds a wrapper with the given timeout and resolver and an empty cache of its own, and leaves existing wrappers unchanged. |
| Host.Invoke | src/memoization.ts:42-65 | When `func` and the resolver call no memoized wrapper, calling one wrapper changes no other wrapper. |
| Host.Tick | src/memoization.ts:59-62 | Moving the shared clock changes no wrapper's configuration or invocation count. |
| Host.InvokeKeepsSynced | src/memoization.ts:40-42 | Calls keep every wrapper on the shared clock and in a reachable state. |
| Host.TickKeepsSynced | src/memoization.ts:59-62 | Clock moves keep every wrapper on the shared clock and in a reachable state. |
| Host.MemoizeKeepsSynced | src/memoization.ts:34-42 | Creating a wrapper keeps every wrapper on the shared clock and in a reachable state. |
| Scenarios.RepeatedCallServedFromCache | test/memoization.test.ts:12-56 | With a mock returning 5 and then 10, both calls return 5 and the mock runs once, with or without a resolver. |
| Scenarios.NullResultServedFromCache | test/memoization.test.ts:58-80 | With a mock returning `null` and then 10, both calls return `null` and the mock runs once. |
| Scenarios.DifferentArgumentsComputedSeparately | test/memoization.test.ts:82-113 | The first argument gives 5 twice with one invocation. A second argument then gives 10, for two invocations in all. |
| Scenarios.ServedAt999RecomputedAt1000 | test/memoization.test.ts:115-167 | With a 1000 ms timeout the value is still served after 999 ms. After 1000 ms it is recomputed. |
| Scenarios.OverlongTimeoutExpiresAfter1ms | src/memoization.ts:59-62 | With a timeout of 2^31 ms the value is recomputed after 1 ms. |
| Scenarios.RestoredValueDeletedByOlderTimer | src/memoization.ts:52-62 | After an `undefined` result at 0 and a 5 stored at 500, the 5 is served at 999. The deletion scheduled at 0 removes it at 1000. |

## Left out

- The real `setTimeout` and event loop. Deletions run only when `Memo.Advance` moves the virtual clock. Calls are separate steps, as with the fake timers in `test/memoization.test.ts:4-10`.
- Node's rule that a delay below 1 ms becomes 1 ms, and negative or fractional timeouts. `timeout` is a `nat`, a timeout of 0 stays 0 as with the fake timers, and a deletion is due once the clock reaches its deadline. The clamp of an over-long delay to 1 ms is modelled by `Memo.Delay`.
- JavaScript numbers other than safe integers, and negative zero. `JsVal.Num` stands for an integer with |n| <= 2^53 - 1, written in full decimal. JavaScript has no number for most larger integers: `f(2 ** 53)` and `f(2 ** 53 + 1)` are the same call, and `JSON.stringify` writes a large integer with its shortest round-trip digits (`[1152921504606847000]` for 2^60) and from 10^21 up in exponent form. The model writes every `Num` exactly, so it keeps apart integers beyond the safe range that JavaScript conflates. `JSON.stringify` writes `-0` as `0`, so `f(-0)` and `f(0)` share a default key; the model has no `-0`.
- Objects, arrays, functions, symbols and `BigInt` as arguments or results. `JSON.stringify` writes functions in an array as `null` and throws on `BigInt` and on cycles. None of these is modelled.
- Lone surrogate code units in strings. Dafny characters are Unicode scalar values, so `Json.EscapeChar` escapes only `"`, `\` and the control characters.
- Property-key coercion of a resolver result that is not a string, and inherited properties of the `{}` cache such as `toString`. The resolver returns a string and the cache is a map.
- `Scenarios.KeyIsFirstArgument`: models the tests' resolver `(key) => key` only for the string arguments they pass. Other arguments get the key `""`.
- A resolver whose result depends on anything besides its arguments (the time, a counter, outside state), such as `memoize(f, 1000, () => String(n++))`, which never hits. `Memo.Resolver` is a fixed function from arguments to key, so the repeat-call lemmas assume a repeated call resolves to the same key.
- A `func` or resolver that calls any memoized wrapper: the wrapper itself, as a memoized recursive function does, or another one, as in `memoize((x) => memoB(x) + 1, t)`. `func` is given as its outcome and the resolver as a fixed function of the arguments, so neither can call a wrapper; the entry and deletion such a nested call adds to its wrapper's cache are not modelled, and `Host.Invoke` promises that other wrappers are unchanged only under this assumption.
- Asynchronous `func` results (promises), TypeScript generics, and jest's mock bookkeeping. The invocation counter `State.calls` stands for `mock.calls.length`.
- Releasing a wrapper. The model keeps every wrapper. A wrapper that became unreachable could be dropped without affecting any other.
- `.eslintrc.js` configures linting only and is not part of this model.
