/**
 * The undo/redo timeline of the map editor.
 *
 * Two stacks of whole-scene snapshots: `history`, whose last entry is the
 * snapshot last pushed (or brought back by undo or redo), and `redoStack`, whose
 * last entry is the next snapshot a redo brings back. A snapshot is an abstract value `S`; two
 * snapshots are the same when they are equal (the editor compares their JSON
 * texts).
 *
 * The functions Pushed, Undone and Redone say what one operation does to the
 * two stacks; class History performs the operations in place and is proved
 * against them; the lemmas relate several operations.
 */
module Timeline {
  import opened Wrappers

  /** After a push, `history` keeps at most this many snapshots. */
  const Cap: nat := 250

  /** The two stacks as a value. The top of each stack is its last element. */
  datatype Stacks<S> = Stacks(history: seq<S>, redo: seq<S>)

  /** What an undo or a redo leaves behind, and the snapshot it hands to restore (None: nothing happened). */
  datatype Step<S> = Step(after: Stacks<S>, restore: Option<S>)

  function Last<S>(s: seq<S>): S
    requires |s| > 0
  {
    s[|s| - 1]
  }

  /** The state about to be pushed equals the snapshot last pushed. */
  predicate IsRepeat<S(==)>(t: Stacks<S>, state: S) {
    |t.history| > 0 && Last(t.history) == state
  }

  // ---------------------------------------------------------------------------
  // One operation at a time
  // ---------------------------------------------------------------------------

  /** pushHistory: record `state` unless it repeats the snapshot last pushed. */
  function Pushed<S(==)>(t: Stacks<S>, state: S, clearRedo: bool): (r: Stacks<S>)
    ensures IsRepeat(t, state) ==> r == t
    ensures !IsRepeat(t, state) ==> |r.history| > 0 && Last(r.history) == state
    ensures !IsRepeat(t, state) ==> r.redo == if clearRedo then [] else t.redo
    ensures !IsRepeat(t, state) && |t.history| < Cap ==> r.history == t.history + [state]
    ensures !IsRepeat(t, state) && |t.history| >= Cap ==> r.history == t.history[1..] + [state]
    ensures |t.history| <= Cap ==> |r.history| <= Cap
  {
    if IsRepeat(t, state) then t
    else
      var grown := t.history + [state];
      var redo := if clearRedo then [] else t.redo;
      Stacks(if |grown| > Cap then grown[1..] else grown, redo)
  }

  /** undo: move the newest history entry onto the redo stack and restore the one before it. */
  function Undone<S>(t: Stacks<S>): (r: Step<S>)
    ensures |t.history| < 2 ==> r == Step(t, None)
    ensures |t.history| >= 2 ==>
      r.after.history == t.history[..|t.history| - 1] &&
      r.after.redo == t.redo + [Last(t.history)] &&
      |r.after.history| > 0 && r.restore == Some(Last(r.after.history))
    ensures |r.after.history| + |r.after.redo| == |t.history| + |t.redo|
    ensures |t.history| >= 1 ==> |r.after.history| >= 1
  {
    if |t.history| < 2 then Step(t, None)
    else
      var current := Last(t.history);
      var remaining := t.history[..|t.history| - 1];
      Step(Stacks(remaining, t.redo + [current]), Some(Last(remaining)))
  }

  /** redo: move the top of the redo stack back onto history and restore it. */
  function Redone<S>(t: Stacks<S>): (r: Step<S>)
    ensures t.redo == [] ==> r == Step(t, None)
    ensures t.redo != [] ==>
      r.after.history == t.history + [Last(t.redo)] &&
      r.after.redo == t.redo[..|t.redo| - 1] &&
      r.restore == Some(Last(t.redo))
    ensures |r.after.history| + |r.after.redo| == |t.history| + |t.redo|
  {
    if |t.redo| < 1 then Step(t, None)
    else
      var next := Last(t.redo);
      Step(Stacks(t.history + [next], t.redo[..|t.redo| - 1]), Some(next))
  }

  // ---------------------------------------------------------------------------
  // The timeline as the editor holds it: two arrays updated in place
  // ---------------------------------------------------------------------------

  class History<S(==)> {
    var history: seq<S>
    var redoStack: seq<S>

    function State(): Stacks<S>
      reads this
    {
      Stacks(history, redoStack)
    }

    /** Both arrays start empty; the editor then pushes its initial snapshot with clearRedo off. */
    constructor ()
      ensures history == [] && redoStack == []
    {
      history := [];
      redoStack := [];
    }

    method PushHistory(state: S, clearRedo: bool)
      modifies this
      ensures State() == Pushed(old(State()), state, clearRedo)
    {
      if |history| > 0 {
        var last := history[|history| - 1];
        if last == state {
          return;
        }
      }
      history := history + [state];
      if clearRedo {
        redoStack := [];
      }
      if |history| > Cap {
        history := history[1..];
      }
    }

    method Undo() returns (restore: Option<S>)
      modifies this
      ensures Step(State(), restore) == Undone(old(State()))
    {
      if |history| < 2 {
        return None;
      }
      var current := history[|history| - 1];
      history := history[..|history| - 1];
      redoStack := redoStack + [current];
      var prev := history[|history| - 1];
      restore := Some(prev);
    }

    method Redo() returns (restore: Option<S>)
      modifies this
      ensures Step(State(), restore) == Redone(old(State()))
    {
      if |redoStack| < 1 {
        return None;
      }
      var next := redoStack[|redoStack| - 1];
      redoStack := redoStack[..|redoStack| - 1];
      history := history + [next];
      restore := Some(next);
    }
  }

  // ---------------------------------------------------------------------------
  // Undo and redo are inverse
  // ---------------------------------------------------------------------------

  lemma UndoThenRedo<S>(t: Stacks<S>)
    requires |t.history| >= 2
    ensures Redone(Undone(t).after) == Step(t, Some(Last(t.history)))
  {
    var u := Undone(t).after;
    assert u.history + [Last(t.history)] == t.history;
  }

  lemma RedoThenUndo<S>(t: Stacks<S>)
    requires t.redo != [] && |t.history| >= 1
    ensures Undone(Redone(t).after) == Step(t, Some(Last(t.history)))
  {
    var d := Redone(t).after;
    assert d.history[..|d.history| - 1] == t.history;
  }

  /** `k` undos in a row. */
  function UndoTimes<S>(t: Stacks<S>, k: nat): Stacks<S>
  {
    if k == 0 then t else Undone(UndoTimes(t, k - 1)).after
  }

  /** `k` redos in a row. */
  function RedoTimes<S>(t: Stacks<S>, k: nat): Stacks<S>
    decreases k
  {
    if k == 0 then t else RedoTimes(Redone(t).after, k - 1)
  }

  function Reversed<S>(s: seq<S>): (r: seq<S>)
    ensures |r| == |s|
  {
    if s == [] then [] else Reversed(s[1..]) + [s[0]]
  }

  /** The stacks after `k` undos: the `k` newest history entries moved, newest first, to the redo stack. */
  function Peeled<S>(t: Stacks<S>, k: nat): Stacks<S>
    requires k <= |t.history|
  {
    var n := |t.history|;
    Stacks(t.history[..n - k], t.redo + Reversed(t.history[n - k..]))
  }

  lemma PeeledNone<S>(t: Stacks<S>)
    ensures Peeled(t, 0) == t
  {
    assert t.history[|t.history|..] == [];
    assert t.history[..|t.history|] == t.history;
  }

  lemma UndonePeeled<S>(t: Stacks<S>, k: nat)
    requires 0 < k < |t.history|
    ensures Undone(Peeled(t, k - 1)).after == Peeled(t, k)
  {
    var n := |t.history|;
    var h := t.history[..n - (k - 1)];
    assert h[..n - k] == t.history[..n - k];
    var tail := t.history[n - k..];
    assert tail[1..] == t.history[n - (k - 1)..];
    assert Reversed(tail) == Reversed(tail[1..]) + [h[n - k]];
  }

  /** Undoing `k` times, with `k` below the history length, peels the `k` newest snapshots
      off history and stacks them on the redo stack, newest first. */
  lemma {:induction false} UndoTimesPeels<S>(t: Stacks<S>, k: nat)
    requires k < |t.history|
    ensures UndoTimes(t, k) == Peeled(t, k)
  {
    if k == 0 {
      PeeledNone(t);
    } else {
      UndoTimesPeels(t, k - 1);
      UndonePeeled(t, k);
    }
  }

  lemma RedonePeeled<S>(t: Stacks<S>, k: nat)
    requires 0 < k <= |t.history|
    ensures Redone(Peeled(t, k)).after == Peeled(t, k - 1)
  {
    var n := |t.history|;
    var tail := t.history[n - k..];
    assert tail[1..] == t.history[n - (k - 1)..];
    assert Reversed(tail) == Reversed(tail[1..]) + [t.history[n - k]];
    assert t.history[..n - k] + [t.history[n - k]] == t.history[..n - (k - 1)];
  }

  lemma RedoTimesPeeledStep<S>(t: Stacks<S>, k: nat)
    requires 0 < k <= |t.history|
    ensures RedoTimes(Peeled(t, k), k) == RedoTimes(Peeled(t, k - 1), k - 1)
  {
    RedonePeeled(t, k);
  }

  /** Redoing `k` times from the stacks that `k` undos leave gives back the original stacks. */
  lemma {:induction false} RedoTimesPeeled<S>(t: Stacks<S>, k: nat)
    requires k <= |t.history|
    ensures RedoTimes(Peeled(t, k), k) == t
  {
    if k == 0 {
      PeeledNone(t);
    } else {
      RedoTimesPeeledStep(t, k);
      RedoTimesPeeled(t, k - 1);
    }
  }

  /** Undoing `k` times and then redoing `k` times gives back both stacks exactly. */
  lemma RedoTimesUndoesUndoTimes<S>(t: Stacks<S>, k: nat)
    requires k < |t.history|
    ensures RedoTimes(UndoTimes(t, k), k) == t
  {
    UndoTimesPeels(t, k);
    RedoTimesPeeled(t, k);
  }

  // ---------------------------------------------------------------------------
  // Pushing many snapshots
  // ---------------------------------------------------------------------------

  /** Push each state of `states` in order, with the default clearRedo. */
  function PushAll<S(==)>(t: Stacks<S>, states: seq<S>): Stacks<S>
    decreases states
  {
    if states == [] then t else PushAll(Pushed(t, states[0], true), states[1..])
  }

  /** The `n` newest entries of `s` (all of `s` when it is shorter). */
  function Newest<S>(s: seq<S>, n: nat): (r: seq<S>)
    ensures |r| <= n && |r| <= |s|
  {
    if |s| <= n then s else s[|s| - n..]
  }

  /** No state in `states` repeats the one pushed just before it. */
  predicate NoRepeats<S(==)>(history: seq<S>, states: seq<S>)
    decreases states
  {
    states == [] ||
    ((history == [] || states[0] != Last(history)) && NoRepeats([states[0]], states[1..]))
  }

  lemma NewestOfNewest<S>(a: seq<S>, b: seq<S>, n: nat)
    ensures Newest(Newest(a, n) + b, n) == Newest(a + b, n)
  {
    if |a| > n {
      var c := a[|a| - n..] + b;
      var d := a + b;
      forall j | |c| - n <= j < |c| ensures c[j] == d[j + |a| - n] {
      }
      assert c[|c| - n..] == d[|d| - n..];
    }
  }

  lemma NoRepeatsAfterPush<S>(history: seq<S>, states: seq<S>, history': seq<S>)
    requires NoRepeats(history, states) && |states| > 0
    requires |history'| > 0 && Last(history') == states[0]
    ensures NoRepeats(history', states[1..])
  {
  }

  lemma AppendFirst<S>(a: seq<S>, s: seq<S>)
    requires s != []
    ensures a + [s[0]] + s[1..] == a + s
  {
    assert s == [s[0]] + s[1..];
  }

  lemma PushedKeepsNewest<S>(t: Stacks<S>, state: S)
    requires |t.history| <= Cap && !IsRepeat(t, state)
    ensures Pushed(t, state, true) == Stacks(Newest(t.history + [state], Cap), [])
  {
    var grown := t.history + [state];
    if |t.history| == Cap {
      assert grown[1..] == t.history[1..] + [state];
    }
  }

  /** Pushing states that never repeat their predecessor keeps exactly the newest
      `Cap` snapshots, in order, and empties the redo stack. */
  lemma {:induction false} PushAllKeepsNewest<S>(t: Stacks<S>, states: seq<S>)
    requires |t.history| <= Cap
    requires NoRepeats(t.history, states)
    ensures PushAll(t, states).history == Newest(t.history + states, Cap)
    ensures PushAll(t, states).redo == if states == [] then t.redo else []
    decreases states
  {
    if states == [] {
      assert t.history + states == t.history;
    } else {
      var grown := t.history + [states[0]];
      var t' := Pushed(t, states[0], true);
      PushedKeepsNewest(t, states[0]);
      NoRepeatsAfterPush(t.history, states, t'.history);
      PushAllKeepsNewest(t', states[1..]);
      NewestOfNewest(grown, states[1..], Cap);
      AppendFirst(t.history, states);
    }
  }

  /** From empty stacks, push `n` states that never repeat their predecessor
      (`n` at most Cap): `n - 1` undos come back to the first, and `n - 1` redos
      afterwards come back to where the pushes left the timeline. */
  lemma ReplayTimeline<S>(states: seq<S>)
    requires 1 <= |states| <= Cap
    requires NoRepeats([], states)
    ensures PushAll(Stacks([], []), states) == Stacks(states, [])
    ensures UndoTimes(Stacks(states, []), |states| - 1) == Stacks([states[0]], Reversed(states[1..]))
    ensures RedoTimes(UndoTimes(Stacks(states, []), |states| - 1), |states| - 1) == Stacks(states, [])
  {
    PushAllFromEmpty(states);
    var k := |states| - 1;
    UndoTimesPeels(Stacks(states, []), k);
    FirstOnly(states);
    RedoTimesUndoesUndoTimes(Stacks(states, []), k);
  }

  lemma PushAllFromEmpty<S>(states: seq<S>)
    requires |states| <= Cap
    requires NoRepeats([], states)
    ensures PushAll(Stacks([], []), states) == Stacks(states, [])
  {
    PushAllKeepsNewest(Stacks([], []), states);
    assert [] + states == states;
  }

  lemma FirstOnly<S>(s: seq<S>)
    requires |s| >= 1
    ensures s[..1] == [s[0]]
  {
  }

  // ---------------------------------------------------------------------------
  // Invariants over any run of operations
  // ---------------------------------------------------------------------------

  datatype Action<S> = Push(state: S, clearRedo: bool) | Undo | Redo

  function Apply<S(==)>(t: Stacks<S>, a: Action<S>): Stacks<S>
  {
    match a
    case Push(state, clearRedo) => Pushed(t, state, clearRedo)
    case Undo => Undone(t).after
    case Redo => Redone(t).after
  }

  function Run<S(==)>(t: Stacks<S>, actions: seq<Action<S>>): Stacks<S>
    decreases actions
  {
    if actions == [] then t else Run(Apply(t, actions[0]), actions[1..])
  }

  /** The state the editor starts from: the initial snapshot pushed with clearRedo off. */
  lemma InitialPush<S>(initial: S)
    ensures Pushed(Stacks([], []), initial, false) == Stacks([initial], [])
  {
  }

  /** Once history holds a snapshot, no sequence of pushes, undos and redos empties it. */
  lemma {:induction false} RunNeverEmpties<S>(t: Stacks<S>, actions: seq<Action<S>>)
    requires |t.history| >= 1
    ensures |Run(t, actions).history| >= 1
    decreases actions
  {
    if actions != [] {
      RunNeverEmpties(Apply(t, actions[0]), actions[1..]);
    }
  }

  /** The timeline's invariant as the editor uses it: history holds a snapshot,
      and history and redo stack together hold at most Cap snapshots. */
  predicate Healthy<S>(t: Stacks<S>) {
    1 <= |t.history| && |t.history| + |t.redo| <= Cap
  }

  /** After the initial push every call in the editor passes `clearRedo` = true. A push
      skipped as a repeat changes neither stack, so the redo stack is not always cleared. */
  predicate ClearsRedo<S>(a: Action<S>) {
    a.Push? ==> a.clearRedo
  }

  lemma {:induction false} RunStaysHealthy<S>(t: Stacks<S>, actions: seq<Action<S>>)
    requires Healthy(t)
    requires forall i :: 0 <= i < |actions| ==> ClearsRedo(actions[i])
    ensures Healthy(Run(t, actions))
    ensures |Run(t, actions).history| <= Cap
    decreases actions
  {
    if actions != [] {
      assert ClearsRedo(actions[0]);
      var t' := Apply(t, actions[0]);
      assert Healthy(t');
      RunStaysHealthy(t', actions[1..]);
    }
  }

  /** The cap is applied only by a push: a push that keeps the redo stack, made
      right after an undo at the cap, lets the next redo grow history past Cap. */
  lemma RedoCanPassCap()
    ensures var t := Stacks(seq(Cap, i => i), []);
            |Redone(Pushed(Undone(t).after, Cap, false)).after.history| == Cap + 1
  {
    var t := Stacks(seq(Cap, i => i), []);
    var u := Undone(t).after;
    assert |u.history| == Cap - 1 && u.redo == [Cap - 1];
    assert Last(u.history) == Cap - 2;
    var p := Pushed(u, Cap, false);
    assert |p.history| == Cap && p.redo == [Cap - 1];
  }
}
