/** `useFilterHistory`: a bounded undo/redo list of filter settings with a
    cursor. The pure steps on a `HistoryState` value state what each hook
    callback does; the class `FilterHistory` holds the two pieces of hook
    state and updates them in place. */
module History {
  import opened Wrappers
  import opened Types

  /** At most this many settings are kept. */
  const MaxHistory := 50

  /** The hook state: the saved settings and the cursor, -1 when nothing
      was saved. */
  datatype HistoryState = HistoryState(entries: seq<FilterSettings>, index: int)

  const Empty := HistoryState([], -1)

  /** The states the hook can reach: the cursor is on an entry, or at -1
      exactly when there is none, and the list holds at most 50 entries. */
  ghost predicate Valid(h: HistoryState) {
    -1 <= h.index < |h.entries| <= MaxHistory && (h.index == -1 <==> h.entries == [])
  }

  /** `prev.slice(0, end)`, which clamps `end` into the list. */
  function Prefix(s: seq<FilterSettings>, end: int): seq<FilterSettings> {
    if end <= 0 then [] else if end >= |s| then s else s[..end]
  }

  /** `saveState`: drop everything after the cursor, append the new
      settings; past 50 entries drop the oldest and leave the cursor where
      it was, otherwise move it to the last entry. */
  function SaveStep(h: HistoryState, state: FilterSettings): HistoryState {
    var kept := Prefix(h.entries, h.index + 1) + [state];
    if |kept| > MaxHistory then HistoryState(kept[1..], h.index)
    else HistoryState(kept, |kept| - 1)
  }

  predicate Undoable(h: HistoryState) {
    h.index > 0
  }

  predicate Redoable(h: HistoryState) {
    h.index < |h.entries| - 1
  }

  /** `undo`: the new state and the settings returned (`null` is `None`). */
  function UndoStep(h: HistoryState): (HistoryState, Option<FilterSettings>) {
    if h.index > 0 && h.index - 1 < |h.entries| then (h.(index := h.index - 1), Some(h.entries[h.index - 1]))
    else (h, None)
  }

  /** `redo`. */
  function RedoStep(h: HistoryState): (HistoryState, Option<FilterSettings>) {
    if h.index < |h.entries| - 1 && 0 <= h.index + 1 then (h.(index := h.index + 1), Some(h.entries[h.index + 1]))
    else (h, None)
  }

  lemma EmptyValid()
    ensures Valid(Empty) && !Undoable(Empty) && !Redoable(Empty)
  {
  }

  /** After `saveState` the cursor is on the saved settings, nothing is left
      to redo, the entries before it are the ones up to the old cursor
      (without the oldest on overflow), and at most 50 entries remain.
      Overflow only happens from a full history with the cursor at its end. */
  lemma SaveSpec(h: HistoryState, state: FilterSettings)
    requires Valid(h)
    ensures Valid(SaveStep(h, state))
    ensures SaveStep(h, state).index == |SaveStep(h, state).entries| - 1
    ensures SaveStep(h, state).entries[SaveStep(h, state).index] == state
    ensures !Redoable(SaveStep(h, state))
    ensures |h.entries[..h.index + 1]| < MaxHistory ==>
      SaveStep(h, state).entries == h.entries[..h.index + 1] + [state]
    ensures |h.entries[..h.index + 1]| == MaxHistory ==>
      h == HistoryState(h.entries, MaxHistory - 1) && SaveStep(h, state).entries == h.entries[1..] + [state]
  {
    assert Prefix(h.entries, h.index + 1) == h.entries[..h.index + 1];
  }

  /** `undo` moves the cursor back one entry and returns that entry exactly
      when `canUndo` holds; otherwise it changes nothing and returns null.
      The entries never change. */
  lemma UndoSpec(h: HistoryState)
    requires Valid(h)
    ensures Valid(UndoStep(h).0) && UndoStep(h).0.entries == h.entries
    ensures Undoable(h) <==> UndoStep(h).1.Some?
    ensures Undoable(h) ==> UndoStep(h).0.index == h.index - 1 && UndoStep(h).1 == Some(h.entries[h.index - 1])
    ensures !Undoable(h) ==> UndoStep(h).0 == h
  {
  }

  /** `redo`, symmetrically. */
  lemma RedoSpec(h: HistoryState)
    requires Valid(h)
    ensures Valid(RedoStep(h).0) && RedoStep(h).0.entries == h.entries
    ensures Redoable(h) <==> RedoStep(h).1.Some?
    ensures Redoable(h) ==> RedoStep(h).0.index == h.index + 1 && RedoStep(h).1 == Some(h.entries[h.index + 1])
    ensures !Redoable(h) ==> RedoStep(h).0 == h
  {
  }

  /** Redo undoes an undo, returning the settings that were current. */
  lemma UndoThenRedo(h: HistoryState)
    requires Valid(h) && Undoable(h)
    ensures RedoStep(UndoStep(h).0) == (h, Some(h.entries[h.index]))
  {
  }

  /** Undo undoes a redo. */
  lemma RedoThenUndo(h: HistoryState)
    requires Valid(h) && Redoable(h)
    ensures UndoStep(RedoStep(h).0) == (h, Some(h.entries[h.index]))
  {
  }

  /** Undo right after a save that did not overflow returns the settings
      that were current before it, and a redo brings the saved ones back. */
  lemma SaveThenUndo(h: HistoryState, state: FilterSettings)
    requires Valid(h) && 0 <= h.index < MaxHistory - 1
    ensures UndoStep(SaveStep(h, state)).1 == Some(h.entries[h.index])
    ensures RedoStep(UndoStep(SaveStep(h, state)).0) == (SaveStep(h, state), Some(state))
  {
    SaveSpec(h, state);
  }

  /** Saving discards the redo branch: settings after the cursor are gone. */
  lemma SaveDropsRedo(h: HistoryState, state: FilterSettings)
    requires Valid(h) && Redoable(h)
    ensures |SaveStep(h, state).entries| == h.index + 2 <= |h.entries|
    ensures SaveStep(h, state).entries[..h.index + 1] == h.entries[..h.index + 1]
  {
    SaveSpec(h, state);
  }

  /** The hook state, updated in place as the hook's `setHistory` and
      `setHistoryIndex` calls do. */
  class FilterHistory {
    var history: seq<FilterSettings>
    var historyIndex: int

    ghost function Model(): HistoryState
      reads this
    {
      HistoryState(history, historyIndex)
    }

    ghost predicate Inv()
      reads this
    {
      Valid(Model())
    }

    constructor()
      ensures Inv() && Model() == Empty
    {
      history := [];
      historyIndex := -1;
    }

    function CanUndo(): (r: bool)
      reads this
      ensures r <==> Undoable(Model())
    {
      historyIndex > 0
    }

    function CanRedo(): (r: bool)
      reads this
      ensures r <==> Redoable(Model())
    {
      historyIndex < |history| - 1
    }

    /** `saveState`. */
    method SaveState(state: FilterSettings)
      requires Inv()
      modifies this
      ensures Inv() && Model() == SaveStep(old(Model()), state)
      ensures history[historyIndex] == state
    {
      var newHistory := Prefix(history, historyIndex + 1);
      newHistory := newHistory + [state];
      if |newHistory| > MaxHistory {
        newHistory := newHistory[1..];
      } else {
        historyIndex := |newHistory| - 1;
      }
      history := newHistory;
      SaveSpec(old(Model()), state);
    }

    /** `undo`. */
    method Undo() returns (r: Option<FilterSettings>)
      requires Inv()
      modifies this
      ensures Inv() && (Model(), r) == UndoStep(old(Model()))
    {
      if historyIndex > 0 {
        var newIndex := historyIndex - 1;
        historyIndex := newIndex;
        return Some(history[newIndex]);
      }
      return None;
    }

    /** `redo`. */
    method Redo() returns (r: Option<FilterSettings>)
      requires Inv()
      modifies this
      ensures Inv() && (Model(), r) == RedoStep(old(Model()))
    {
      if historyIndex < |history| - 1 {
        var newIndex := historyIndex + 1;
        historyIndex := newIndex;
        return Some(history[newIndex]);
      }
      return None;
    }
  }
}
