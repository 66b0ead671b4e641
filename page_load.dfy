/** saveHistory as written takes the snapshot's coordinates from the browser's global
    `event`. At page load no event is being dispatched, so reading its offset throws:
    the cursor has already advanced, but nothing is appended. This module models that
    save and what follows from it; the rest of the project uses the save with explicit
    coordinates (SnapshotHistory.Save via Drawing.Start). */
module PageLoad {
  import opened Canvas
  import opened SnapshotHistory
  import Drawing

  /** The global `event` at the moment of a save: none, or a mouse event with its offsets. */
  datatype AmbientEvent = NoEvent | MouseAt(x: int, y: int)

  /** saveHistory as written: the cursor moves and the history is cut before the
      snapshot's coordinates are read; with no current event, the push never happens. */
  function SaveAsWritten(h: History<Drawing.Snapshot>, image: ImageData, ev: AmbientEvent): (r: History<Drawing.Snapshot>)
    requires WellFormed(h)
    ensures ev.MouseAt? ==> r == Save(h, Drawing.Snapshot(image, ev.x, ev.y))
    ensures ev.NoEvent? ==> forall s :: Save(h, s) == History(r.entries + [s], r.index)
  {
    var i := h.index + 1;
    var kept := if i < |h.entries| then h.entries[..i] else h.entries;
    match ev
    case NoEvent => History(kept, i)
    case MouseAt(x, y) => History(kept + [Drawing.Snapshot(image, x, y)], i)
  }

  /** The save at page load leaves no snapshot and the cursor past the end. */
  lemma PageLoadSaveStoresNothing(image: ImageData)
    ensures SaveAsWritten(Empty(), image, NoEvent) == History([], 0)
    ensures !Valid(SaveAsWritten(Empty(), image, NoEvent))
  {
  }

  /** From such a state, later saves (one per stroke) keep the cursor one past the last
      entry: the entry a shape preview reads at the cursor never exists. */
  lemma {:induction false} SavesStayPastEnd(h: History<Drawing.Snapshot>, ops: seq<Op<Drawing.Snapshot>>)
    requires h.index == |h.entries|
    requires forall k :: 0 <= k < |ops| ==> ops[k].SaveOp?
    ensures Run(h, ops).index == |Run(h, ops).entries|
    decreases |ops|
  {
    if ops != [] {
      var h' := Save(h, ops[0].snapshot);
      assert Apply(h, ops[0]) == h';
      SavesStayPastEnd(h', ops[1..]);
    }
  }

  /** Hence after page load and any number of strokes, no cursor entry exists. */
  lemma StrokesAfterPageLoadHaveNoCurrent(image: ImageData, ops: seq<Op<Drawing.Snapshot>>)
    requires forall k :: 0 <= k < |ops| ==> ops[k].SaveOp?
    ensures !Valid(Run(SaveAsWritten(Empty(), image, NoEvent), ops))
  {
    SavesStayPastEnd(SaveAsWritten(Empty(), image, NoEvent), ops);
  }

  /** An undo after a save puts the cursor back on an entry, and it stays on one after. */
  lemma UndoAfterPageLoadRecovers(image: ImageData, s: Drawing.Snapshot, ops: seq<Op<Drawing.Snapshot>>)
    ensures Valid(Run(Undo(Save(SaveAsWritten(Empty(), image, NoEvent), s)), ops))
  {
    var h := Undo(Save(SaveAsWritten(Empty(), image, NoEvent), s));
    assert h == History([s], 0);
    RunKeepsValid(h, ops);
  }
}
