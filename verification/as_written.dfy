/** `pop()` as written, with the exception its mirror rebuild raises.
    After moving `Current` to the parent it rebuilds the mirror with
    `vars(ctx.data)`, but `ctx.data` is a plain dict, which has no
    `__dict__`, so `vars` raises `TypeError` on every pop that has a
    parent to return to. The stack itself has already been restored when
    the exception leaves. The rest of the model uses `ContextStack.Pop`,
    the stack effect alone, which is what the bracket helpers evidently
    rely on.
 */
module AsWritten {
  import opened ContextStack
  import opened Scopes

  const VarsTypeError: Error := "TypeError: vars() argument must have __dict__ attribute"

  /** `pop()` as written: the parent becomes current, then the mirror
      rebuild raises, unless the current context is the root. */
  function PopAsWritten<V>(s: Stack<V>): (e: Exit<V>)
    ensures e.stack == Pop(s)
    ensures e.raised.Some? <==> |s| > 1
    ensures e.raised.Some? ==> e.raised.value == VarsTypeError
  {
    if |s| == 1 then Exit(s, None)
    else Exit(s[..|s| - 1], Some(VarsTypeError))
  }

  /** `scope` (or a `contextual` call) over the as-written `pop`: an
      exception raised in a `finally` replaces whatever the body returned
      or raised. The body itself runs through `Run`, so scopes and blocks
      nested in it use the corrected `Pop`; only this outer pop is the
      as-written one. Since the scope's own frame always has a parent, that
      pop always raises, and it still leaves the stack where the corrected
      scope would. */
  function ScopeAsWritten<V, R>(s: Stack<V>, vars: Frame<V>, body: Body<V, R>): (r: (Stack<V>, Outcome<R>))
    ensures r.1 == Fail(VarsTypeError)
    ensures r.0 == ScopeExit(s, vars, body.ops).stack
    ensures |r.0| >= |s| && r.0[..|s|] == s
  {
    var e := Run(Push(s, vars), body.ops);
    var p := PopAsWritten(e.stack);
    (p.stack, if p.raised.Some? then Fail(p.raised.value) else Report(e, body.result))
  }

  /** Over the as-written `pop`, a guarded scope still restores the stack,
      but it never returns: it always fails with the mirror's `TypeError`,
      losing the body's value or its exception. */
  lemma ScopeAsWrittenAlwaysFails<V, R>(s: Stack<V>, vars: Frame<V>, body: Body<V, R>)
    requires Guarded(body.ops)
    ensures ScopeAsWritten(s, vars, body).0 == s
    ensures ScopeAsWritten(s, vars, body).1 == Fail(VarsTypeError)
  {
    var ctx := Push(s, vars);
    var e := Run(ctx, body.ops);
    GuardedBalanced(ctx, body.ops);
    ReturnToParent(s, ctx, e.stack);
  }

  /** The smallest case: `with scope(request="r1"): return 7` on a fresh
      stack fails as written, while the scope over the corrected `pop`
      returns 7. */
  lemma ScopeAsWrittenLosesResult()
    ensures ScopeAsWritten(Root<string>(), map["request" := "r1"], Body([], 7)).1 == Fail(VarsTypeError)
    ensures Report(Run(Push(Root<string>(), map["request" := "r1"]), []), 7) == Ok(7)
  {
    ScopeAsWrittenAlwaysFails(Root<string>(), map["request" := "r1"], Body([], 7));
  }
}
