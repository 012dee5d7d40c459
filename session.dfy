/**
 * The timeline together with the scene it is meant to track.
 *
 * The six direct callers of pushHistory (creating a shape, editing a marker
 * label, starting a free-draw line, starting a move, scale or rotate gesture)
 * call it and then change the scene. So the snapshot pushed is the scene
 * from BEFORE the action, while the timeline's own comments and its undo guard
 * ("[prev, current]") take the newest history entry to be the CURRENT scene.
 * Style edits go through pushHistoryDebounced instead, which is not part of
 * this model, so their timing is not shown.
 *
 * ActPushingBefore models the actions as written; the lemmas after it show that
 * undo then reverts two actions at once and that the first action cannot be
 * undone. ActPushingAfter pushes the scene the action produced; with it the
 * newest history entry always equals the live scene, and one undo reverts
 * exactly one action.
 */
module Session {
  import opened Wrappers
  import opened Timeline

  /** The timeline and the scene currently on the map. */
  datatype Editor<S> = Editor(stacks: Stacks<S>, live: S)

  /** The editor right after loading: the initial push of the empty scene. */
  function Loaded<S(==)>(initial: S): (e: Editor<S>)
    ensures e.stacks == Stacks([initial], []) && e.live == initial
  {
    Editor(Pushed(Stacks([], []), initial, false), initial)
  }

  /** An action as the editor performs it: snapshot the scene, then change it to `next`. */
  function ActPushingBefore<S(==)>(e: Editor<S>, next: S): (r: Editor<S>)
    ensures r.live == next
    ensures InSync(e) ==> r.stacks == e.stacks
    ensures !InSync(e) ==> |r.stacks.history| > 0 && Last(r.stacks.history) == e.live && r.stacks.redo == []
    ensures !InSync(e) && |e.stacks.history| < Cap ==> r.stacks.history == e.stacks.history + [e.live]
    ensures !InSync(e) && |e.stacks.history| >= Cap ==> r.stacks.history == e.stacks.history[1..] + [e.live]
  {
    Editor(Pushed(e.stacks, e.live, true), next)
  }

  /** An action that changes the scene to `next` and then records it. */
  function ActPushingAfter<S(==)>(e: Editor<S>, next: S): (r: Editor<S>)
    ensures r.live == next
    ensures |e.stacks.history| > 0 ==> InSync(r)
    ensures IsRepeat(e.stacks, next) ==> r.stacks == e.stacks
    ensures !IsRepeat(e.stacks, next) ==> r.stacks.redo == []
    ensures !IsRepeat(e.stacks, next) && |e.stacks.history| < Cap ==> r.stacks.history == e.stacks.history + [next]
    ensures !IsRepeat(e.stacks, next) && |e.stacks.history| >= Cap ==> r.stacks.history == e.stacks.history[1..] + [next]
  {
    Editor(Pushed(e.stacks, next, true), next)
  }

  /** The undo button: the scene becomes the snapshot handed to restore, if any. */
  function UndoScene<S>(e: Editor<S>): (r: Editor<S>)
    ensures r.stacks == Undone(e.stacks).after
    ensures |e.stacks.history| < 2 ==> r == e
    ensures |e.stacks.history| >= 2 ==> r.live == Last(r.stacks.history)
  {
    var step := Undone(e.stacks);
    Editor(step.after, if step.restore.Some? then step.restore.value else e.live)
  }

  /** The redo button: the scene becomes the snapshot handed to restore, if any. */
  function RedoScene<S>(e: Editor<S>): (r: Editor<S>)
    ensures r.stacks == Redone(e.stacks).after
    ensures e.stacks.redo == [] ==> r == e
    ensures e.stacks.redo != [] ==> r.live == Last(r.stacks.history)
  {
    var step := Redone(e.stacks);
    Editor(step.after, if step.restore.Some? then step.restore.value else e.live)
  }

  /** The newest history entry is the scene on the map. */
  predicate InSync<S(==)>(e: Editor<S>) {
    |e.stacks.history| > 0 && Last(e.stacks.history) == e.live
  }

  // ---------------------------------------------------------------------------
  // As written: the snapshot is taken before the change
  // ---------------------------------------------------------------------------

  /** After loading, the first action cannot be undone: undo leaves its scene on the map. */
  lemma FirstActionNotUndone<S>(s0: S, s1: S)
    requires s0 != s1
    ensures var e := ActPushingBefore(Loaded(s0), s1);
            e.live == s1 && UndoScene(e) == e
  {
  }

  /** Two actions after loading, one undo goes back to the scene before both, and redo
      brings back the scene between them: the scene of the second action is lost. */
  lemma UndoRevertsTwoActions<S>(s0: S, s1: S, s2: S)
    requires s0 != s1 && s1 != s2 && s0 != s2
    ensures var e := ActPushingBefore(ActPushingBefore(Loaded(s0), s1), s2);
            e.live == s2 && !InSync(e) &&
            UndoScene(e).live == s0 &&
            RedoScene(UndoScene(e)).live == s1
  {
    var e1 := ActPushingBefore(Loaded(s0), s1);
    assert e1.stacks == Stacks([s0], []);
    var e := ActPushingBefore(e1, s2);
    assert e.stacks == Stacks([s0, s1], []);
  }

  /** Two actions, an undo, then a third action: the third action's push repeats the
      scene undo restored, so it is skipped and the redo stack survives; redo then
      replaces the third action's scene with the one undo took off. */
  lemma StaleRedoAfterUndo<S>(s0: S, s1: S, s2: S, s3: S)
    requires s0 != s1 && s1 != s2 && s0 != s2 && s3 != s1
    ensures var a := ActPushingBefore(UndoScene(ActPushingBefore(ActPushingBefore(Loaded(s0), s1), s2)), s3);
            a.stacks == Stacks([s0], [s1]) && a.live == s3 &&
            RedoScene(a).live == s1
  {
    var e := ActPushingBefore(ActPushingBefore(Loaded(s0), s1), s2);
    assert e.stacks == Stacks([s0, s1], []);
    assert UndoScene(e) == Editor(Stacks([s0], [s1]), s0);
  }

  // ---------------------------------------------------------------------------
  // Corrected: the snapshot is taken after the change
  // ---------------------------------------------------------------------------

  lemma LoadedInSync<S>(initial: S)
    ensures InSync(Loaded(initial))
  {
  }

  /** Every operation keeps the newest history entry equal to the scene on the map. */
  lemma InSyncKept<S>(e: Editor<S>, next: S)
    requires InSync(e)
    ensures InSync(ActPushingAfter(e, next))
    ensures InSync(UndoScene(e))
    ensures InSync(RedoScene(e))
  {
  }

  /** One undo reverts exactly the last action, and redo brings its scene back with both
      stacks as they were. */
  lemma UndoRevertsOneAction<S>(e: Editor<S>, next: S)
    requires InSync(e) && next != e.live
    ensures UndoScene(ActPushingAfter(e, next)).live == e.live
    ensures RedoScene(UndoScene(ActPushingAfter(e, next))) == ActPushingAfter(e, next)
  {
    var a := ActPushingAfter(e, next);
    UndoAfterPush(e.stacks, next);
    UndoThenRedo(a.stacks);
  }

  /** Undo right after a push that was not a repeat restores the entry that was newest before it. */
  lemma UndoAfterPush<S>(t: Stacks<S>, state: S)
    requires |t.history| > 0 && state != Last(t.history)
    ensures |Pushed(t, state, true).history| >= 2
    ensures Undone(Pushed(t, state, true)).restore == Some(Last(t.history))
  {
    var h := Pushed(t, state, true).history;
    if |t.history| < Cap {
      assert h[..|h| - 1] == t.history;
    } else {
      assert h[..|h| - 1] == t.history[1..];
    }
  }

  /** An action that changes the scene discards the redo branch: redo afterwards does nothing. */
  lemma ActionDiscardsRedo<S>(e: Editor<S>, next: S)
    requires InSync(e) && next != e.live
    ensures ActPushingAfter(e, next).stacks.redo == []
    ensures RedoScene(ActPushingAfter(e, next)) == ActPushingAfter(e, next)
  {
  }

  /** The run of StaleRedoAfterUndo with the corrected order: the third action is kept,
      after the first, and redo leaves it on the map. */
  lemma RedoKeepsNewAction<S>(s0: S, s1: S, s2: S, s3: S)
    requires s0 != s1 && s1 != s2 && s3 != s1
    ensures var a := ActPushingAfter(UndoScene(ActPushingAfter(ActPushingAfter(Loaded(s0), s1), s2)), s3);
            a.stacks == Stacks([s0, s1, s3], []) && a.live == s3 &&
            RedoScene(a) == a
  {
    var e := ActPushingAfter(ActPushingAfter(Loaded(s0), s1), s2);
    assert e.stacks == Stacks([s0, s1, s2], []);
    assert UndoScene(e) == Editor(Stacks([s0, s1], [s2]), s1);
  }

  /** What the user does: an action that leads to scene `next`, or a button. */
  datatype Input<S> = Act(next: S) | UndoButton | RedoButton

  /** One input, with every action recording the scene it produced. */
  function Next<S(==)>(e: Editor<S>, input: Input<S>): Editor<S>
  {
    match input
    case Act(next) => ActPushingAfter(e, next)
    case UndoButton => UndoScene(e)
    case RedoButton => RedoScene(e)
  }

  function Replay<S(==)>(e: Editor<S>, inputs: seq<Input<S>>): Editor<S>
    decreases inputs
  {
    if inputs == [] then e else Replay(Next(e, inputs[0]), inputs[1..])
  }

  /** Any run of actions, undos and redos keeps the editor in sync. */
  lemma {:induction false} ReplayInSync<S>(e: Editor<S>, inputs: seq<Input<S>>)
    requires InSync(e)
    ensures InSync(Replay(e, inputs))
    decreases inputs
  {
    if inputs != [] {
      InSyncKept(e, if inputs[0].Act? then inputs[0].next else e.live);
      ReplayInSync(Next(e, inputs[0]), inputs[1..]);
    }
  }
}
