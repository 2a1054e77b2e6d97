/** The bracket helpers `scope` and `contextual`: each pushes a frame, runs a
    body, and pops in a `finally`, so the pop happens on a normal exit and on
    a failing one. A body is modelled by what it does to the stack: a
    sequence of operations that may add to or assign in the current frame,
    attempt a delete, raise, open a nested `scope`, or bracket itself by
    hand with a bare `push(...)` ... `pop()` that has no `finally`. Only an
    exception can cut a body short: there is no `return`, `break` or
    `continue`, no `try`/`except`, and no `push` or `pop` outside a block,
    so every bare `push` reaches its `pop()` unless an exception
    propagates.
 */
module Scopes {
  import opened ContextStack

  /** Python exceptions are opaque here: only their identity matters. */
  type Error = string

  datatype Op<V> =
    | AddOp(kv: Frame<V>)                       // add(**kv)
    | SetOp(key: string, value: V)              // ctx[key] = value on the current frame
    | DelOp(key: string)                        // del ctx[key]
    | RaiseOp(error: Error)                     // raise error
    | ScopeOp(vars: Frame<V>, body: seq<Op<V>>) // with scope(**vars): body
    | BlockOp(vars: Frame<V>, body: seq<Op<V>>) // push(**vars); body; pop()

  /** Where a body leaves the stack, and the exception it raised, if any. */
  datatype Exit<V> = Exit(stack: Stack<V>, raised: Option<Error>)

  /** A body together with the value it returns when it does not raise. */
  datatype Body<V, R> = Body(ops: seq<Op<V>>, result: R)

  datatype Outcome<R> = Ok(value: R) | Fail(error: Error)

  /** A body never pops below the frame it started on: whatever it does,
      and whether it returns or raises, the ancestors of that frame are
      still there, unchanged. */
  function Run<V>(s: Stack<V>, ops: seq<Op<V>>): (e: Exit<V>)
    ensures KeepsAncestors(s, e.stack)
    decreases ops, 0
  {
    if |ops| == 0 then Exit(s, None)
    else
      var e := Exec(s, ops[0]);
      if e.raised.Some? then e else Run(e.stack, ops[1..])
  }

  /** One operation of a body. `raise` raises its own exception, and add,
      assignment and delete raise nothing. A nested `scope` pops its frame
      and passes its body's exception on unchanged. A bare block that is
      left by an exception keeps its frame; what it raises is stated by
      `BlockRestoresOnReturn`. */
  function Exec<V>(s: Stack<V>, op: Op<V>): (e: Exit<V>)
    ensures KeepsAncestors(s, e.stack)
    ensures op.RaiseOp? ==> e.raised == Some(op.error)
    ensures op.AddOp? || op.SetOp? || op.DelOp? ==> e.raised.None? && |e.stack| == |s|
    ensures op.ScopeOp? ==> e.raised == Run(Push(s, op.vars), op.body).raised
    ensures op.ScopeOp? ==> e == ScopeExit(s, op.vars, op.body)
    ensures op.BlockOp? && e.raised.Some? ==> |e.stack| > |s|
    decreases op, 1
  {
    match op
    case AddOp(kv) => Exit(Add(s, kv), None)
    case SetOp(k, v) => Exit(SetItem(s, k, v), None)
    case DelOp(k) => Exit(DelItem(s, k), None)
    case RaiseOp(err) => Exit(s, Some(err))
    case ScopeOp(vars, body) => ScopeExit(s, vars, body)
    case BlockOp(vars, body) =>
      var e := Run(Push(s, vars), body);
      if e.raised.Some? then e else Exit(Pop(e.stack), None)
  }

  /** `with scope(**vars): body`, nested or at the top: push, run the body
      on the new frame, pop in the `finally` whether the body returned or
      raised, and pass the body's exception on. */
  function ScopeExit<V>(s: Stack<V>, vars: Frame<V>, body: seq<Op<V>>): (e: Exit<V>)
    ensures KeepsAncestors(s, e.stack)
    ensures e.raised == Run(Push(s, vars), body).raised
    decreases ScopeOp(vars, body), 0
  {
    var b := Run(Push(s, vars), body);
    Exit(Pop(b.stack), b.raised)
  }

  /** No bare `push(...)` ... `pop()` block whose body can raise: every
      bracket that can be left by an exception is a `scope`. */
  predicate Guarded<V>(ops: seq<Op<V>>)
    decreases ops
  {
    forall i :: 0 <= i < |ops| ==> GuardedOp(ops[i])
  }

  predicate GuardedOp<V>(op: Op<V>)
    decreases op
  {
    match op
    case ScopeOp(_, body) => Guarded(body)
    case BlockOp(_, body) => NeverRaises(body)
    case _ => true
  }

  predicate NeverRaises<V>(ops: seq<Op<V>>)
    decreases ops
  {
    forall i :: 0 <= i < |ops| ==> NeverRaisesOp(ops[i])
  }

  predicate NeverRaisesOp<V>(op: Op<V>)
    decreases op
  {
    match op
    case RaiseOp(_) => false
    case ScopeOp(_, body) => NeverRaises(body)
    case BlockOp(_, body) => NeverRaises(body)
    case _ => true
  }

  /** The stack `t` keeps every ancestor of the current frame of `s` and
      is at least as deep. */
  ghost predicate KeepsAncestors<V>(s: Stack<V>, t: Stack<V>)
  {
    |t| >= |s| && t[..|s| - 1] == s[..|s| - 1]
  }

  /** The stack `t` is `s` with at most its current frame replaced: same
      depth, same ancestors. */
  ghost predicate SameAncestors<V>(s: Stack<V>, t: Stack<V>)
  {
    |t| == |s| && t[..|s| - 1] == s[..|s| - 1]
  }

  /** A body that returns normally leaves the depth where it found it and
      never touches an ancestor of the frame it started on. */
  lemma {:induction false} RunReturnBalanced<V>(s: Stack<V>, ops: seq<Op<V>>)
    ensures Run(s, ops).raised.None? ==> SameAncestors(s, Run(s, ops).stack)
    decreases ops
  {
    if |ops| > 0 {
      var e := Exec(s, ops[0]);
      ExecReturnBalanced(s, ops[0]);
      if e.raised.None? {
        RunReturnBalanced(e.stack, ops[1..]);
      }
    }
  }

  lemma {:induction false} ExecReturnBalanced<V>(s: Stack<V>, op: Op<V>)
    ensures Exec(s, op).raised.None? ==> SameAncestors(s, Exec(s, op).stack)
    decreases op
  {
    match op
    case AddOp(kv) =>
    case SetOp(k, v) =>
    case DelOp(k) =>
    case RaiseOp(err) =>
    case ScopeOp(vars, body) =>
      var p := Push(s, vars);
      RunReturnBalanced(p, body);
      if Run(p, body).raised.None? {
        ReturnToParent(s, p, Run(p, body).stack);
      }
    case BlockOp(vars, body) =>
      var p := Push(s, vars);
      RunReturnBalanced(p, body);
      if Run(p, body).raised.None? {
        ReturnToParent(s, p, Run(p, body).stack);
      }
  }

  /** Popping a stack that has the ancestors of a fresh push gives back the
      stack the push was made on. */
  lemma ReturnToParent<V>(s: Stack<V>, p: Stack<V>, t: Stack<V>)
    requires |p| == |s| + 1 && p[..|s|] == s
    requires SameAncestors(p, t)
    ensures Pop(t) == s
  {
    assert t[..|t| - 1] == p[..|s|];
  }

  /** A body that cannot raise always returns normally. */
  lemma {:induction false} NeverRaisesReturns<V>(s: Stack<V>, ops: seq<Op<V>>)
    requires NeverRaises(ops)
    ensures Run(s, ops).raised.None?
    decreases ops
  {
    if |ops| > 0 {
      NeverRaisesOpReturns(s, ops[0]);
      NeverRaisesReturns(Exec(s, ops[0]).stack, ops[1..]);
    }
  }

  lemma {:induction false} NeverRaisesOpReturns<V>(s: Stack<V>, op: Op<V>)
    requires NeverRaisesOp(op)
    ensures Exec(s, op).raised.None?
    decreases op
  {
    match op
    case AddOp(kv) =>
    case SetOp(k, v) =>
    case DelOp(k) =>
    case ScopeOp(vars, body) =>
      NeverRaisesReturns(Push(s, vars), body);
    case BlockOp(vars, body) =>
      NeverRaisesReturns(Push(s, vars), body);
  }

  /** A guarded body leaves the depth and the ancestors as it found them
      whether it returns or raises. */
  lemma {:induction false} GuardedBalanced<V>(s: Stack<V>, ops: seq<Op<V>>)
    requires Guarded(ops)
    ensures SameAncestors(s, Run(s, ops).stack)
    decreases ops
  {
    if |ops| > 0 {
      var e := Exec(s, ops[0]);
      GuardedOpBalanced(s, ops[0]);
      if e.raised.None? {
        assert Guarded(ops[1..]) by {
          forall i | 0 <= i < |ops[1..]| ensures GuardedOp(ops[1..][i]) {
            assert ops[1..][i] == ops[i + 1];
          }
        }
        GuardedBalanced(e.stack, ops[1..]);
      }
    }
  }

  lemma {:induction false} GuardedOpBalanced<V>(s: Stack<V>, op: Op<V>)
    requires GuardedOp(op)
    ensures SameAncestors(s, Exec(s, op).stack)
    decreases op
  {
    match op
    case AddOp(kv) =>
    case SetOp(k, v) =>
    case DelOp(k) =>
    case RaiseOp(err) =>
    case ScopeOp(vars, body) =>
      var p := Push(s, vars);
      GuardedBalanced(p, body);
      ReturnToParent(s, p, Run(p, body).stack);
    case BlockOp(vars, body) =>
      var p := Push(s, vars);
      NeverRaisesReturns(p, body);
      RunReturnBalanced(p, body);
      ReturnToParent(s, p, Run(p, body).stack);
  }

  /** A well-bracketed block, `push`, a body that returns, `pop`, leaves the
      stack exactly as it found it, including whatever the body added to
      the frame the block opened. Whether it returns or raises, the block
      raises exactly what its body raised. */
  lemma BlockRestoresOnReturn<V>(s: Stack<V>, vars: Frame<V>, body: seq<Op<V>>)
    ensures Exec(s, BlockOp(vars, body)).raised.None? ==> Exec(s, BlockOp(vars, body)).stack == s
    ensures Exec(s, BlockOp(vars, body)).raised == Run(Push(s, vars), body).raised
  {
    var p := Push(s, vars);
    RunReturnBalanced(p, body);
    if Run(p, body).raised.None? {
      ReturnToParent(s, p, Run(p, body).stack);
    }
  }

  /** Without the `finally`, an exception inside a bare block skips the
      pop: the exception propagates as the body raised it, and the block's
      frame, with everything above it, stays on top of the old stack. */
  lemma BlockLeaksFrameOnRaise<V>(s: Stack<V>, vars: Frame<V>, body: seq<Op<V>>)
    requires Run(Push(s, vars), body).raised.Some?
    ensures Exec(s, BlockOp(vars, body)) == Run(Push(s, vars), body)
    ensures |Exec(s, BlockOp(vars, body)).stack| >= |s| + 1
    ensures Exec(s, BlockOp(vars, body)).stack[..|s|] == s
  {
    var p := Push(s, vars);
    var t := Run(p, body).stack;
    assert t[..|s|] == t[..|p| - 1][..|s|];
  }

  /** What a scope hands back to its caller: the body's value, or the
      body's exception unchanged. */
  function Report<V, R>(e: Exit<V>, result: R): (out: Outcome<R>)
    ensures out.Ok? <==> e.raised.None?
    ensures out.Ok? ==> out.value == result
    ensures out.Fail? ==> out.error == e.raised.value
  {
    if e.raised.Some? then Fail(e.raised.value) else Ok(result)
  }

  /** `with scope(**vars) as ctx: body`: push, run the body on the new
      frame, pop in the `finally`, then return or re-raise. */
  method Scope<V, R>(s: Stack<V>, vars: Frame<V>, body: Body<V, R>) returns (after: Stack<V>, out: Outcome<R>)
    ensures Guarded(body.ops) ==> after == s
    ensures out.Ok? ==> after == s && out.value == body.result
    ensures |after| >= |s| && after[..|s|] == s
    ensures out.Ok? <==> Run(Push(s, vars), body.ops).raised.None?
    ensures out.Fail? ==> Run(Push(s, vars), body.ops).raised == Some(out.error)
    ensures after == ScopeExit(s, vars, body.ops).stack
    ensures out == Report(ScopeExit(s, vars, body.ops), body.result)
  {
    var ctx := Push(s, vars);
    var e := Run(ctx, body.ops);
    after := ScopeExit(s, vars, body.ops).stack;
    out := Report(e, body.result);
    RunReturnBalanced(ctx, body.ops);
    if Guarded(body.ops) {
      GuardedBalanced(ctx, body.ops);
    }
    if e.raised.None? || Guarded(body.ops) {
      ReturnToParent(s, ctx, e.stack);
    }
    assert after[..|s|] == e.stack[..|ctx| - 1][..|s|];
  }

  /** `contextual(fn, **vars)`: the assignments are bound once, when the
      callable is wrapped, and reused by every call. */
  datatype Contextual<!A, V, R> = Contextual(fn: A -> Body<V, R>, vars: Frame<V>)

  /** One call of a `contextual`-wrapped callable: push the bound
      assignments, call `fn(args)`, pop in the `finally`. */
  method CallContextual<A, V, R>(w: Contextual<A, V, R>, s: Stack<V>, args: A) returns (after: Stack<V>, out: Outcome<R>)
    ensures Guarded(w.fn(args).ops) ==> after == s
    ensures out.Ok? ==> after == s && out.value == w.fn(args).result
    ensures |after| >= |s| && after[..|s|] == s
    ensures out.Ok? <==> Run(Push(s, w.vars), w.fn(args).ops).raised.None?
    ensures out.Fail? ==> Run(Push(s, w.vars), w.fn(args).ops).raised == Some(out.error)
  {
    after, out := Scope(s, w.vars, w.fn(args));
  }

  /** A nested scope undoes a shadowing assignment on exit: the usage
      example of `scope`, with an outer `ctx.update(...)` and an inner
      `inner_ctx['source'] = ...`. */
  lemma ScopeUsageExample()
    ensures var s1 := Add(Push(Root<string>(), map["answer" := "42"]),
                          map["name" := "Ultimate Question", "source" := "Deep Thought"]);
            var inner := SetItem(Push(s1, map["task" := "generate_question"]), "source", "Earth");
            && Current(inner)["source"] == "Earth"
            && Current(inner)["answer"] == "42"
            && Pop(inner) == s1
            && Current(Pop(inner))["source"] == "Deep Thought"
            && Pop(Pop(inner)) == Root()
  {
    var s1 := Add(Push(Root<string>(), map["answer" := "42"]),
                  map["name" := "Ultimate Question", "source" := "Deep Thought"]);
    var p := Push(s1, map["task" := "generate_question"]);
    SetItemShadowsUntilPop(s1, map["task" := "generate_question"], "source", "Earth");
    AddVanishesOnPop(Push(Root<string>(), map["answer" := "42"]), map["name" := "Ultimate Question", "source" := "Deep Thought"]);
    PushThenPop(Root<string>(), map["answer" := "42"]);
  }
}
