/** The snapshot history of the controller: the array `history` and the cursor
    `historyIndex`, as one value, with the three operations that change them. */
module SnapshotHistory {

  datatype History<T> = History(entries: seq<T>, index: int)

  /** The state before the first save: no entries, cursor at -1. */
  function Empty<T>(): (h: History<T>)
    ensures h.entries == [] && h.index == -1
  {
    History([], -1)
  }

  /** The cursor lies between -1 and the length: true of every state the code reaches. */
  predicate WellFormed<T>(h: History<T>)
  {
    -1 <= h.index <= |h.entries|
  }

  /** The cursor designates an entry: the snapshot currently shown. */
  predicate Valid<T>(h: History<T>)
  {
    0 <= h.index < |h.entries|
  }

  function Current<T>(h: History<T>): T
    requires Valid(h)
  {
    h.entries[h.index]
  }

  /** saveHistory: advance the cursor, drop every entry from the cursor on, append `s`. */
  function Save<T>(h: History<T>, s: T): (r: History<T>)
    requires WellFormed(h)
    ensures r.index == h.index + 1
    ensures h.index < |h.entries| ==> Valid(r) && Current(r) == s && |r.entries| == r.index + 1
    ensures h.index < |h.entries| ==> forall k :: 0 <= k < r.index ==> r.entries[k] == h.entries[k]
    ensures h.index == |h.entries| ==> r.index == |r.entries| && r.entries == h.entries + [s]
  {
    var i := h.index + 1;
    var kept := if i < |h.entries| then h.entries[..i] else h.entries;
    History(kept + [s], i)
  }

  /** undo: step the cursor back when it is past the first entry; otherwise nothing. */
  function Undo<T>(h: History<T>): (r: History<T>)
    requires WellFormed(h)
    ensures WellFormed(r) && r.entries == h.entries
    ensures h.index > 0 ==> r.index == h.index - 1 && Valid(r)
    ensures h.index <= 0 ==> r == h
  {
    if h.index > 0 then h.(index := h.index - 1) else h
  }

  /** redo: step the cursor forward when it is before the last entry; otherwise nothing. */
  function Redo<T>(h: History<T>): (r: History<T>)
    requires WellFormed(h)
    ensures WellFormed(r) && r.entries == h.entries
    ensures h.index < |h.entries| - 1 ==> r.index == h.index + 1 && Valid(r)
    ensures h.index >= |h.entries| - 1 ==> r == h
  {
    if h.index < |h.entries| - 1 then h.(index := h.index + 1) else h
  }

  /** A successful undo followed by redo comes back to the same cursor and snapshot. */
  lemma UndoThenRedo<T>(h: History<T>)
    requires Valid(h) && h.index > 0
    ensures Current(Undo(h)) == h.entries[h.index - 1]
    ensures Redo(Undo(h)) == h && Current(Redo(Undo(h))) == Current(h)
  {
  }

  /** A successful redo followed by undo comes back to the same cursor and snapshot. */
  lemma RedoThenUndo<T>(h: History<T>)
    requires Valid(h) && h.index < |h.entries| - 1
    ensures Current(Redo(h)) == h.entries[h.index + 1]
    ensures Undo(Redo(h)) == h
  {
  }

  /** Saving destroys the redo branch: a redo straight after a save does nothing. */
  lemma RedoAfterSaveIsNoOp<T>(h: History<T>, s: T)
    requires WellFormed(h) && h.index < |h.entries|
    ensures Redo(Save(h, s)) == Save(h, s)
  {
  }

  /** Saving with the cursor before the end keeps entries 0..index and discards the rest. */
  lemma SaveTruncates<T>(h: History<T>, s: T)
    requires Valid(h)
    ensures Save(h, s).entries == h.entries[..h.index + 1] + [s]
  {
  }

  /** `n` presses of undo. */
  function UndoTimes<T>(h: History<T>, n: nat): History<T>
    requires WellFormed(h)
    decreases n
  {
    if n == 0 then h else Undo(UndoTimes(h, n - 1))
  }

  /** `n` presses of redo. */
  function RedoTimes<T>(h: History<T>, n: nat): History<T>
    requires WellFormed(h)
    decreases n
  {
    if n == 0 then h else Redo(RedoTimes(h, n - 1))
  }

  lemma {:induction false} UndoTimesMovesBack<T>(h: History<T>, n: nat)
    requires Valid(h) && n <= h.index
    ensures UndoTimes(h, n) == h.(index := h.index - n)
  {
    if n > 0 {
      UndoTimesMovesBack(h, n - 1);
    }
  }

  lemma {:induction false} RedoTimesMovesForward<T>(h: History<T>, n: nat)
    requires Valid(h) && h.index + n < |h.entries|
    ensures RedoTimes(h, n) == h.(index := h.index + n)
  {
    if n > 0 {
      RedoTimesMovesForward(h, n - 1);
    }
  }

  /** Undoing `n` times and then redoing `n` times returns to the same state. */
  lemma UndoRedoTimes<T>(h: History<T>, n: nat)
    requires Valid(h) && n <= h.index
    ensures RedoTimes(UndoTimes(h, n), n) == h
  {
    UndoTimesMovesBack(h, n);
    RedoTimesMovesForward(UndoTimes(h, n), n);
  }

  /** The buttons and events that drive the history. */
  datatype Op<T> = SaveOp(snapshot: T) | UndoOp | RedoOp

  function Apply<T>(h: History<T>, op: Op<T>): (r: History<T>)
    requires WellFormed(h)
    ensures WellFormed(r)
  {
    match op
    case SaveOp(s) => Save(h, s)
    case UndoOp => Undo(h)
    case RedoOp => Redo(h)
  }

  function Run<T>(h: History<T>, ops: seq<Op<T>>): (r: History<T>)
    requires WellFormed(h)
    ensures WellFormed(r)
    decreases |ops|
  {
    if ops == [] then h else Run(Apply(h, ops[0]), ops[1..])
  }

  /** Every sequence of saves, undos and redos keeps the cursor on an entry. */
  lemma {:induction false} RunKeepsValid<T>(h: History<T>, ops: seq<Op<T>>)
    requires Valid(h)
    ensures Valid(Run(h, ops))
    decreases |ops|
  {
    if ops != [] {
      var h' := Apply(h, ops[0]);
      assert Valid(h');
      RunKeepsValid(h', ops[1..]);
    }
  }

  /** From the empty history, after the first save, the cursor is always on an entry. */
  lemma ValidAfterFirstSave<T>(first: T, ops: seq<Op<T>>)
    ensures Valid(Run(Save(Empty(), first), ops))
  {
    RunKeepsValid(Save(Empty(), first), ops);
  }

  /** Nothing is invented: every entry was either there before or saved by one of the ops. */
  lemma {:induction false} RunEntriesWereSaved<T>(h: History<T>, ops: seq<Op<T>>)
    requires WellFormed(h)
    ensures forall k :: 0 <= k < |Run(h, ops).entries| ==>
      Run(h, ops).entries[k] in h.entries || SaveOp(Run(h, ops).entries[k]) in ops
    decreases |ops|
  {
    if ops != [] {
      var h' := Apply(h, ops[0]);
      RunEntriesWereSaved(h', ops[1..]);
      assert forall t :: t in h'.entries ==> t in h.entries || SaveOp(t) == ops[0];
      assert forall o :: o in ops[1..] ==> o in ops;
    }
  }

  /** Three saves, one undo, one save: the third snapshot is gone and redo does nothing. */
  lemma SaveAfterUndoExample<T>(s1: T, s2: T, s3: T, s4: T)
    ensures Run(Empty(), [SaveOp(s1), SaveOp(s2), SaveOp(s3), UndoOp, SaveOp(s4)])
      == History([s1, s2, s4], 2)
    ensures Redo(History([s1, s2, s4], 2)) == History([s1, s2, s4], 2)
  {
    var h1 := Save(Empty(), s1);
    var h2 := Save(h1, s2);
    var h3 := Save(h2, s3);
    var h4 := Undo(h3);
    assert h4 == History([s1, s2, s3], 1);
    var h5 := Save(h4, s4);
    assert h5.entries == [s1, s2] + [s4];
    var ops := [SaveOp(s1), SaveOp(s2), SaveOp(s3), UndoOp, SaveOp(s4)];
    assert Run(h5, []) == h5;
    assert Run(h4, [SaveOp(s4)]) == Run(h5, []);
    assert Run(h3, [UndoOp, SaveOp(s4)]) == Run(h4, [SaveOp(s4)]);
    assert Run(h2, ops[2..]) == Run(h3, [UndoOp, SaveOp(s4)]);
    assert Run(h1, ops[1..]) == Run(h2, ops[2..]);
    assert Run(Empty(), ops) == Run(h1, ops[1..]);
  }
}
