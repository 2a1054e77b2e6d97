/** The context stack of backdropy: every frame (a `Context`) holds the whole
    flattened view of its ancestors plus its own assignments, and the module
    global `Current` is the top frame. Frames are finite maps from keyword
    names to values; the parent chain is the sequence of frames from the
    root (index 0) to `Current` (the last element). Values are treated as
    immutable, so the `deepcopy` taken at push time is the identity: what a
    child does to its own data never reaches an ancestor.
 */
module ContextStack {

  datatype Option<T> = None | Some(value: T)

  /** The data of one `Context`. */
  type Frame<V> = map<string, V>

  /** The parent chain, root first. It is never empty: the root has no
      parent and is never removed. */
  type Stack<V> = frames: seq<Frame<V>> | |frames| > 0 witness [map[]]

  /** The flattened view of the current context (`Current.data`). */
  function Current<V>(s: Stack<V>): Frame<V>
  {
    s[|s| - 1]
  }

  /** The data a `Context(parent, positional, **named)` starts with.
      `UserDict.__init__` applies the positional mapping first and the
      keyword arguments second; with a parent, the keyword arguments are the
      parent's copied data overlaid by the explicit ones. So a key given
      positionally loses to the same key in the parent or in `named`. */
  function InitData<V>(parent: Option<Frame<V>>, positional: Frame<V>, named: Frame<V>): (d: Frame<V>)
    ensures parent.None? ==> d.Keys == positional.Keys + named.Keys
    ensures parent.Some? ==> d.Keys == positional.Keys + parent.value.Keys + named.Keys
    ensures forall k :: k in named ==> d[k] == named[k]
    ensures parent.Some? ==> forall k :: k in parent.value && k !in named ==> d[k] == parent.value[k]
    ensures forall k :: k in positional && k !in named && (parent.None? || k !in parent.value) ==> d[k] == positional[k]
  {
    var kwargs := if parent.Some? then parent.value + named else named;
    positional + kwargs
  }

  /** The initial stack: `Current = Context(None)`. */
  function Root<V>(): (s: Stack<V>)
    ensures |s| == 1 && Current(s) == map[]
  {
    [InitData(None, map[], map[])]
  }

  /** `push(**kv)`: `Current = Context(Current, kv)`. The pushed mapping is
      passed positionally, so the parent's copy is applied after it. */
  function Push<V>(s: Stack<V>, kv: Frame<V>): (r: Stack<V>)
    ensures |r| == |s| + 1
    ensures r[..|s|] == s
    ensures Current(r).Keys == Current(s).Keys + kv.Keys
    ensures forall k :: k in Current(s) ==> Current(r)[k] == Current(s)[k]
    ensures forall k :: k in kv && k !in Current(s) ==> Current(r)[k] == kv[k]
  {
    s + [InitData(Some(Current(s)), kv, map[])]
  }

  /** `pop()`, stack effect only: `Current = Current.parent` unless the
      current context is the root. Rebuilding the thread-local mirror is not
      part of this function (see the AsWritten module). */
  function Pop<V>(s: Stack<V>): (r: Stack<V>)
    ensures r <= s
    ensures (r == s) <==> |s| == 1
    ensures |s| > 1 ==> |r| == |s| - 1
  {
    if |s| == 1 then s else s[..|s| - 1]
  }

  /** `add(**kv)`: `Current.update(kv)`, in place on the current frame. */
  function Add<V>(s: Stack<V>, kv: Frame<V>): (r: Stack<V>)
    ensures |r| == |s|
    ensures r[..|s| - 1] == s[..|s| - 1]
    ensures Current(r).Keys == Current(s).Keys + kv.Keys
    ensures forall k :: k in kv ==> Current(r)[k] == kv[k]
    ensures forall k :: k in Current(s) && k !in kv ==> Current(r)[k] == Current(s)[k]
  {
    s[..|s| - 1] + [Current(s) + kv]
  }

  /** `ctx[key] = value` on the current frame (`Context.__setitem__`). */
  function SetItem<V>(s: Stack<V>, key: string, value: V): (r: Stack<V>)
    ensures |r| == |s|
    ensures r[..|s| - 1] == s[..|s| - 1]
    ensures Current(r).Keys == Current(s).Keys + {key}
    ensures Current(r)[key] == value
    ensures forall k :: k in Current(s) && k != key ==> Current(r)[k] == Current(s)[k]
  {
    s[..|s| - 1] + [Current(s)[key := value]]
  }

  /** `del ctx[key]` (`Context.__delitem__`): deliberately does nothing. */
  function DelItem<V>(s: Stack<V>, key: string): (r: Stack<V>)
    ensures r == s
  {
    s
  }

  /** One call of the module's API, made directly on the current stack.
      A body run by `scope` or `contextual` uses the richer operation
      language of the Scopes module instead, which adds `raise`, nested
      scopes and push/pop blocks that an exception can cut short. */
  datatype Call<V> =
    | PushCall(kv: Frame<V>)
    | PopCall
    | AddCall(kv: Frame<V>)
    | SetCall(key: string, value: V)
    | DelCall(key: string)

  function Step<V>(s: Stack<V>, c: Call<V>): Stack<V>
  {
    match c
    case PushCall(kv) => Push(s, kv)
    case PopCall => Pop(s)
    case AddCall(kv) => Add(s, kv)
    case SetCall(k, v) => SetItem(s, k, v)
    case DelCall(k) => DelItem(s, k)
  }

  /** Every context holds all the information of the contexts before it:
      the keys of a frame are among the keys of every frame above it. */
  ghost predicate Flattened<V>(s: Stack<V>)
  {
    forall i, j :: 0 <= i <= j < |s| ==> s[i].Keys <= s[j].Keys
  }

  /** The initial stack is trivially flattened. */
  lemma RootFlattened<V>()
    ensures Flattened(Root<V>())
  {
  }

  /** Every call of the API keeps the stack flattened: a pushed child starts
      with all of its parent's keys, `add` and assignment only add keys to
      the current frame, and `pop` drops a frame from the top. */
  lemma StepKeepsFlattened<V>(s: Stack<V>, c: Call<V>)
    requires Flattened(s)
    ensures Flattened(Step(s, c))
  {
  }

  /** Popping the root changes nothing, and the root is the only frame a
      pop leaves in place. */
  lemma PopRootIsNoOp<V>(s: Stack<V>)
    ensures Pop(s) == s <==> s == [Current(s)]
    ensures Pop(Root<V>()) == Root<V>()
  {
  }

  /** `pop` right after `push` restores the stack exactly: every frame, and
      so every key of the current view, not only the pushed ones. */
  lemma PushThenPop<V>(s: Stack<V>, kv: Frame<V>)
    ensures Pop(Push(s, kv)) == s
  {
    var r := Push(s, kv);
    assert |r| > 1;
    assert r[..|r| - 1] == r[..|s|];
  }

  /** A pushed key that the parent already has keeps the parent's value:
      the pushed value is lost when the two differ. */
  lemma PushCollisionKeepsParent<V>(s: Stack<V>, kv: Frame<V>, k: string)
    requires k in kv && k in Current(s)
    requires kv[k] != Current(s)[k]
    ensures k in Current(Push(s, kv))
    ensures Current(Push(s, kv))[k] == Current(s)[k]
    ensures Current(Push(s, kv))[k] != kv[k]
  {
  }

  /** What `add` puts on a non-root frame disappears with that frame's pop,
      and the ancestors never see it. */
  lemma AddVanishesOnPop<V>(s: Stack<V>, kv: Frame<V>)
    requires |s| > 1
    ensures Pop(Add(s, kv)) == Pop(s)
  {
    var r := Add(s, kv);
    assert Pop(r) == r[..|s| - 1];
  }

  /** On the root there is no frame to pop, so what `add` puts there stays. */
  lemma AddOnRootPersists<V>(s: Stack<V>, kv: Frame<V>)
    requires |s| == 1
    ensures Pop(Add(s, kv)) == Add(s, kv)
    ensures Current(Pop(Add(s, kv))) == Current(s) + kv
    ensures Current(Pop(Add(Root<V>(), kv))) == kv
  {
  }

  /** `ctx[key] = value` on a child shadows the parent's value until the
      child is popped, and the pop brings the parent's value back. */
  lemma SetItemShadowsUntilPop<V>(s: Stack<V>, kv: Frame<V>, key: string, value: V)
    ensures Current(SetItem(Push(s, kv), key, value))[key] == value
    ensures Pop(SetItem(Push(s, kv), key, value)) == s
  {
    var p := Push(s, kv);
    var r := SetItem(p, key, value);
    assert r[..|s|] == p[..|s|];
  }

  /** No call other than `pop` ever removes a key from the current view:
      keys vanish only with the frame whose pop discards them. */
  lemma KeysVanishOnlyByPop<V>(s: Stack<V>, c: Call<V>, k: string)
    requires c != PopCall
    requires k in Current(s)
    ensures k in Current(Step(s, c))
  {
  }

  /** Every call except `push` keeps the depth at or below what it was, and
      `push` raises it by exactly one. */
  lemma StepDepth<V>(s: Stack<V>, c: Call<V>)
    ensures c.PushCall? ==> |Step(s, c)| == |s| + 1
    ensures c.PopCall? ==> |Step(s, c)| == if |s| == 1 then 1 else |s| - 1
    ensures !c.PushCall? && !c.PopCall? ==> |Step(s, c)| == |s|
  {
  }
}
