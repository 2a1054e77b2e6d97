# backdropy context stack, modelled in Dafny

backdropy keeps a stack of contexts so that code can attach ambient key/value
metadata (a request id, a task name) to log output. Each `Context` is a
`UserDict` holding the whole flattened view: its parent's data, deep-copied,
together with its own assignments. It also keeps a reference to its `parent`. The
module global `Current` is the top of the stack. `push(**kv)` makes a child
current. `pop()` makes the parent current and does nothing at the root.
`add(**kv)` updates the current context in place. `del ctx[key]` does nothing.
`scope(**vars)` and `contextual(fn, **vars)` bracket a body with `push` and a
`pop` in a `finally`.

The model is functional:

- `context_stack.dfy` (module `ContextStack`): a stack is a non-empty
  `seq<map<string, V>>` (root first, `Current` last). `Push`, `Pop`, `Add`,
  `SetItem` and `DelItem` are pure functions on it. `InitData` is the
  constructor's merge order.
- `scopes.dfy` (module `Scopes`): a body is a small language of operations:
  `add`, item assignment, delete, raise, a nested `scope`, and a bare
  `push ... pop` block without `finally`. `Run`/`Exec` give its effect on
  the stack and the exception it raises. Only an exception cuts a body
  short, so every bare `push` in it reaches its `pop()` unless an exception
  propagates. `ContextStack.Call` is a single API call made directly on the
  stack; the operations are the richer vocabulary of a body. `Scope` and `CallContextual` are
  methods over a body and the value it returns.
- `as_written.dfy` (module `AsWritten`): `pop` as written, with the
  exception its thread-local mirror rebuild raises, and a `scope` whose
  own closing pop is that as-written one (see Findings). Pops nested inside its body are the
  corrected ones.

On a key collision, push keeps the parent's value. `Context.__init__`
overlays the parent's copy with its own keyword arguments
(backdropy/context.py:21). But `push` passes its mapping positionally
(backdropy/context.py:49), and `UserDict.__init__` applies the positional
mapping first and the keyword arguments second (backdropy/context.py:22-23).
So the parent's value is applied last: `push(a=1); push(a=2)` leaves `a` at 1.
Only item assignment or `add` on the child shadows an ancestor's value
(`ContextStack.PushCollisionKeepsParent`).

## Model

| member | source | states |
|---|---|---|
| ContextStack.InitData | backdropy/context.py:18-24 | A new context's data has the positional keys, the parent's keys and the keyword keys. Keyword values win, then the parent's values, then the positional ones. |
| ContextStack.Root | backdropy/context.py:40-41 | The initial stack is one context with no parent and no data. |
| ContextStack.Push | backdropy/context.py:44-50 | Depth grows by exactly one and every existing frame is unchanged. The new view's keys are the old keys plus the pushed keys. Parent keys keep the parent's value, including on collisions. Pushed keys the parent lacks get the pushed value. |
| ContextStack.Pop | backdropy/context.py:53-66 | The result is a prefix of the stack. It equals the stack exactly when only the root is left, and otherwise it is one frame shorter. |
| ContextStack.Add | backdropy/context.py:69-73 | Depth and all ancestor frames are unchanged. The current frame gains the given keys with the given values, and its other keys keep their values. |
| ContextStack.SetItem | backdropy/context.py:26-28 | Assigning one key changes only the current frame. That key gets the new value and every other key is untouched. |
| ContextStack.DelItem | backdropy/context.py:30-37 | Deleting a key leaves the whole stack unchanged: every frame, and so every key. |
| ContextStack.PopRootIsNoOp | backdropy/context.py:53-66 | A pop leaves the stack unchanged if and only if only the root remains. Popping the initial stack returns it unchanged. |
| ContextStack.PushThenPop | backdropy/context.py:44-66 | A pop right after a push restores the whole stack, so every key of the view is restored, not only the pushed ones. |
| ContextStack.PushCollisionKeepsParent | backdropy/context.py:19-23 | When a pushed key already exists in the parent with a different value, the child keeps the parent's value and the pushed value is lost. |
| ContextStack.AddVanishesOnPop | backdropy/context.py:69-73 | On a non-root frame, whatever `add` put there disappears with that frame's pop. |
| ContextStack.AddOnRootPersists | backdropy/context.py:64-73 | On any one-frame stack there is no frame to pop, so the current frame with what `add` put there survives a pop. On the initial stack that frame is exactly the added mapping. |
| ContextStack.SetItemShadowsUntilPop | backdropy/context.py:103-108 | Assigning a key in a child shadows the parent's value, and the child's pop brings the exact prior stack back. |
| ContextStack.KeysVanishOnlyByPop | backdropy/context.py:30-37 | No call other than pop removes a key from the current view. |
| ContextStack.RootFlattened | backdropy/context.py:13-15 | The initial stack satisfies the flattening invariant: each context's keys include the keys of every context before it. |
| ContextStack.StepKeepsFlattened | backdropy/context.py:13-15 | Every API call (push, pop, add, assignment, delete) keeps that invariant, so each context always contains the information of all contexts that came before it. |
| ContextStack.StepDepth | backdropy/context.py:44-73 | Push adds exactly one level. Pop removes one level, or none at the root. Add, assignment and delete keep the depth. |
| Scopes.Run | backdropy/context.py:44-73 | Whatever a body does, and whether it returns or raises, it never goes below the frame it started on. Every ancestor of that frame is still there, unchanged. |
| Scopes.Exec | backdropy/context.py:44-115 | One operation keeps every ancestor of the current frame. A `raise` raises its own exception. Add, assignment and delete keep the depth and raise nothing. A nested `scope` passes its body's exception on unchanged. A bare block left by an exception stays deeper than where it started. |
| Scopes.RunReturnBalanced | backdropy/context.py:44-73 | For bodies in the operation language, a body that returns normally ends at the depth it started at with all ancestors of its starting frame untouched. |
| Scopes.NeverRaisesReturns | backdropy/context.py:84-88 | A body with no raise anywhere always returns normally. |
| Scopes.GuardedBalanced | backdropy/context.py:111-115 | For bodies in the operation language, a body whose brackets are all `scope`s, or bare blocks that cannot raise, keeps depth and ancestors whether it returns or raises. |
| Scopes.BlockRestoresOnReturn | backdropy/context.py:44-66 | For bodies in the operation language, a bare push, body, pop block that returns leaves the stack exactly as before, even if the body added to the block's own frame. On either exit, the block raises exactly what its body raised. |
| Scopes.ScopeExit | backdropy/context.py:111-115 | A `scope`, nested or at the top, pops in its `finally` on both exits. It keeps every ancestor of the frame it was entered on, and raises exactly what its body raised. |
| Scopes.BlockLeaksFrameOnRaise | backdropy/context.py:44-66 | For every body that raises, a bare block skips the pop. It ends exactly where its body did, with the body's exception. The old stack is still underneath, with at least the block's frame on top of it. |
| Scopes.Report | backdropy/context.py:84-88 | The caller sees the body's value if and only if the body did not raise, and otherwise the body's own exception. |
| Scopes.Scope | backdropy/context.py:93-115 | For bodies in the operation language, the stack after exit equals the stack before entry whenever the body returns normally. For a guarded body this also holds when it fails. On every exit, the old stack is a prefix of the final one, and the top-level scope ends exactly as a nested `scope` does. The body's value or exception is passed through unchanged. |
| Scopes.CallContextual | backdropy/context.py:76-90 | A call of a wrapped callable pushes the assignments bound at wrap time. For bodies in the operation language, it leaves the stack as it was, as `Scope` does. On every exit, the old stack is a prefix of the final one. The callable's result or exception is passed through unchanged. |
| Scopes.ScopeUsageExample | backdropy/context.py:99-108 | In the documented usage example, an inner assignment to `source` shows `Earth` inside the inner scope. After the inner exit, `Deep Thought` and the exact outer stack are back, and the outer exit returns to the root. |
| AsWritten.PopAsWritten | backdropy/context.py:53-66 | As written, pop moves to the parent and then raises `TypeError` whenever a parent exists. It raises nothing at the root. |
| AsWritten.ScopeAsWritten | backdropy/context.py:111-115 | A `scope` whose closing pop is the as-written one always fails with `TypeError`, because its own frame always has a parent. With the pops nested in its body corrected, it leaves the stack where the corrected scope would. |
| AsWritten.ScopeAsWrittenAlwaysFails | backdropy/context.py:59-66 | For bodies in the operation language, over the as-written pop, a guarded scope restores the stack but always fails with `TypeError`. The body's value or exception is lost. |
| AsWritten.ScopeAsWrittenLosesResult | backdropy/context.py:111-115 | `scope(request="r1")` around a body returning 7 fails as written, but returns 7 over the corrected pop. |

## Left out

- The thread-local mirror `Vars` (backdropy/context.py:8, 28, 59-62) is a side channel, not the stack. `ContextStack.Pop` and everything built on it model only the reassignment of `Current`. The as-written rebuild is modelled separately under Findings.
- Thread isolation is not modelled. `Current` is a module global, so there is no per-thread behaviour to state.
- `deepcopy` is not modelled. Values are immutable in the model, so the copy is the identity. What remains is its consequence: a child's changes never reach an ancestor.
- Assigning through an outer scope's `ctx` handle while an inner scope is current would mutate an ancestor frame in place. Bodies here only assign in the current frame.
- Dict iteration order, the rest of the `UserDict` API, and `functools.wraps` metadata are not modelled.
- An exception raised by `push` itself (for example from `deepcopy`) is not modelled.
- The logging filter and formatter (backdropy/logging.py) are left out. They are adapters over the standard `logging` module, and they read a `data` attribute that the `Context` class does not have.
- The web-framework middleware (backdropy/django.py) is left out. It is glue code, and it calls `Context.push` and `Context.pop`, which the class does not define.
- Scopes.Scope: bodies never call `push` or `pop` outside a `BlockOp`. A Python body can, and then the `finally` pops the wrong frame. For example, `with scope(a=1): push(b=2)` returns normally but ends one frame deeper than it started.
- Scopes.Scope: bodies cannot catch an exception; the operation language has no `try`/`except`. A Python body can catch one raised inside a bare block, and then the block's frame leaks although the body returns normally. For example, `with scope(a=1): try: push(b=2); raise E; pop() except E: pass` returns normally but ends one frame deeper. The balance promises hold for the operation language, not for such bodies.
- Scopes.Scope: bodies cannot leave a bare block by `return`, `break` or `continue`; only an exception cuts a body short. In Python such an exit skips the block's `pop()`. For example, `with scope(a=1): push(b=2); if done: return 7; pop()` ends one frame deeper than it started, and so does a body `for x in xs: push(b=x); break; pop()`.
- Scopes.CallContextual: the same three restrictions as `Scope`, for the same reasons.
- Scopes.RunReturnBalanced: "returns normally implies balanced" holds because a body can neither call a bare `push`/`pop`, nor catch an exception, nor leave a block by `return`, `break` or `continue`. All three examples under `Scopes.Scope` break it.
- Scopes.GuardedBalanced: holds only because bodies cannot leave a bare block by `return`, `break` or `continue`. For example, `with scope(a=1): push(b=2); if done: return 7; pop()` ends one frame deeper than it started, and so does a body `for x in xs: push(b=x); break; pop()`.
- Scopes.BlockRestoresOnReturn: a block that returns reaches its `pop()` only because there is no early `return`, `break` or `continue`. For example, `with scope(a=1): push(b=2); if done: return 7; pop()` ends one frame deeper than it started, and so does a body `for x in xs: push(b=x); break; pop()`.
- AsWritten.ScopeAsWrittenAlwaysFails: restores the stack only for bodies without an early `return`, `break` or `continue` out of a bare block. For example, `with scope(a=1): push(b=2); if done: return 7; pop()` ends one frame deeper than it started, and so does a body `for x in xs: push(b=x); break; pop()`.
- AsWritten.ScopeAsWritten: only the scope's own closing pop is the as-written one. Pops nested in the body are the corrected `Pop`. As written, a nested pop raises `TypeError` right after moving `Current`, which skips the rest of the body. For the body `[BlockOp(map[], []), BlockOp(map[], [RaiseOp("e")])]` on the root, the source stops at the first block's pop and the `finally` brings the stack back to the root. The model instead runs the second block, which leaks its frame, so it ends one frame deeper. For guarded bodies the two agree (`AsWritten.ScopeAsWrittenAlwaysFails`).

## Findings

| source | as written | input that shows it | evidently intended | confidence | as-written member | corrected member |
|---|---|---|---|---|---|---|
| backdropy/context.py:59-66 | `rebuild_vars` calls `vars()` on `ctx.data`, a plain dict. This raises `TypeError` after `Current` has already moved to the parent, and inside `scope`/`contextual` that exception replaces the body's outcome. | `with scope(request="r1"): return 7` on a fresh stack | pop restores the parent and raises nothing, so the bracket helpers pass the body's value or exception through | high (not executed) | AsWritten.ScopeAsWrittenAlwaysFails | Scopes.Scope |
