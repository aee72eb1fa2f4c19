/** What the overlay screens share: a node that is attached to the GUI when
    the screen shows and detached when it hides, each only when the
    visibility actually changes. The engine calls are recorded as a log. */
module Screens {
  datatype SceneOp = Attach | Detach

  /** A screen's visibility flag and the attach/detach calls made so far. */
  datatype Scene = Scene(visible: bool, ops: seq<SceneOp>)

  const Unshown: Scene := Scene(false, [])

  /** The log alternates attach and detach starting with an attach, and the
      screen is visible exactly when its last call was an attach: a node is
      never attached twice or detached while not attached. */
  predicate Alternates(s: Scene)
  {
    && (forall i :: 0 <= i < |s.ops| ==> s.ops[i] == if i % 2 == 0 then Attach else Detach)
    && (s.visible <==> |s.ops| % 2 == 1)
  }

  /** The `if (!isVisible) { attach; isVisible = true; }` of show. */
  function Opened(s: Scene): (r: Scene)
    ensures r.visible
  {
    if s.visible then s else Scene(true, s.ops + [Attach])
  }

  /** The `if (isVisible) { detach; isVisible = false; }` of hide. */
  function Closed(s: Scene): (r: Scene)
    ensures !r.visible
  {
    if s.visible then Scene(false, s.ops + [Detach]) else s
  }

  /** Showing and hiding keep the log alternating, a second show or hide
      calls the engine no more, and each makes at most one call. */
  lemma OpenClose(s: Scene)
    requires Alternates(s)
    ensures Alternates(Opened(s)) && Alternates(Closed(s))
    ensures Opened(Opened(s)) == Opened(s) && Closed(Closed(s)) == Closed(s)
    ensures |s.ops| <= |Opened(s).ops| <= |s.ops| + 1 && |s.ops| <= |Closed(s).ops| <= |s.ops| + 1
  {
  }
}
