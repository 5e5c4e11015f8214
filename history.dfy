/** The snapshot history that all three editors keep: a bounded list of
    snapshots plus a cursor. `pushToHistory` / `saveHistory` cut the list after
    the cursor, append one snapshot and evict the oldest one when the list
    grows past the capacity; undo and redo move the cursor by one.

    VideoStudio sets the cursor to `newHistory.length - 1`; AudioStudio and
    ImageStudio set it to `Math.min(prev + 1, capacity - 1)`. Both rules are
    modelled, and `CursorRulesAgree` shows they coincide on every well-formed
    history. */
module SnapshotHistory {
  import opened Numeric

  /** The history list and the cursor (`historyStep`). */
  datatype Log<T> = Log(entries: seq<T>, step: int)

  /** The editors start from `[]` with cursor -1; afterwards the cursor always
      names an entry. */
  predicate WellFormed<T>(h: Log<T>, capacity: nat)
  {
    && capacity >= 1
    && |h.entries| <= capacity
    && -1 <= h.step < |h.entries|
    && (|h.entries| > 0 ==> h.step >= 0)
  }

  function Empty<T>(): (h: Log<T>)
    ensures forall capacity: nat | capacity >= 1 :: WellFormed(h, capacity)
  {
    Log([], -1)
  }

  /** `history.slice(0, step + 1)`: `slice` clamps its end to the length. */
  function KeptPrefix<T>(entries: seq<T>, step: int): (p: seq<T>)
    requires step >= -1
    ensures |p| == if step + 1 <= |entries| then step + 1 else |entries|
    ensures p == entries[..|p|]
  {
    if step + 1 <= |entries| then entries[..step + 1] else entries
  }

  /** The list after `slice`, `push(s)` and, when it grew past the capacity,
      `shift()`. */
  function Appended<T>(entries: seq<T>, step: int, s: T, capacity: nat): (r: seq<T>)
    requires step >= -1 && capacity >= 1 && |entries| <= capacity
    ensures |r| <= capacity
    ensures |r| >= 1 && r[|r| - 1] == s
    ensures var kept := KeptPrefix(entries, step) + [s];
            (|kept| <= capacity ==> r == kept) && (|kept| > capacity ==> r == kept[1..])
  {
    var kept := KeptPrefix(entries, step) + [s];
    if |kept| > capacity then kept[1..] else kept
  }

  /** VideoStudio's `pushToHistory`: the cursor becomes the last index. */
  function PushedAtEnd<T>(h: Log<T>, s: T, capacity: nat): (r: Log<T>)
    requires WellFormed(h, capacity)
    ensures WellFormed(r, capacity)
    ensures |r.entries| >= 1 && r.step == |r.entries| - 1 && r.entries[r.step] == s
  {
    var e := Appended(h.entries, h.step, s, capacity);
    Log(e, |e| - 1)
  }

  /** AudioStudio's `pushToHistory` and ImageStudio's `saveHistory`: the cursor
      becomes `Math.min(prev + 1, capacity - 1)`. */
  function PushedAdvanced<T>(h: Log<T>, s: T, capacity: nat): (r: Log<T>)
    requires WellFormed(h, capacity)
    ensures r.entries == Appended(h.entries, h.step, s, capacity)
    ensures r.step == if h.step + 1 <= capacity - 1 then h.step + 1 else capacity - 1
  {
    Log(Appended(h.entries, h.step, s, capacity),
        if h.step + 1 <= capacity - 1 then h.step + 1 else capacity - 1)
  }

  /** On a well-formed history the two cursor rules give the same result: the
      advanced cursor is the last index of the new list, and the redo future is
      gone. */
  lemma CursorRulesAgree<T>(h: Log<T>, s: T, capacity: nat)
    requires WellFormed(h, capacity)
    ensures PushedAdvanced(h, s, capacity) == PushedAtEnd(h, s, capacity)
    ensures WellFormed(PushedAdvanced(h, s, capacity), capacity)
  {
    var kept := KeptPrefix(h.entries, h.step) + [s];
    assert |kept| == h.step + 2;
  }

  /** What the cursor rule of AudioStudio and ImageStudio would do on a history
      whose cursor is past the end: the cursor no longer names the last entry.
      Such a history is not well-formed, so the editors never reach it. */
  lemma CursorRulesDisagreeOffTheEnd()
    ensures PushedAdvanced(Log([7], 0), 8, 3).step == 1
    ensures Appended([7], 5, 8, 3) == [7, 8]
  {
  }

  /** `handleUndo`: when the cursor is above 0, move it down by one and return
      the snapshot it now names; otherwise nothing happens. */
  function Undone<T>(h: Log<T>): (r: (Log<T>, Option<T>))
    requires -1 <= h.step < |h.entries|
    ensures r.0.entries == h.entries
    ensures h.step > 0 ==> r.0.step == h.step - 1 && r.1 == Some(h.entries[h.step - 1])
    ensures h.step <= 0 ==> r.0 == h && r.1 == None
  {
    if h.step > 0 then (Log(h.entries, h.step - 1), Some(h.entries[h.step - 1]))
    else (h, None)
  }

  /** `handleRedo`: when the cursor is below the last index, move it up by one
      and return the snapshot it now names; otherwise nothing happens. */
  function Redone<T>(h: Log<T>): (r: (Log<T>, Option<T>))
    requires -1 <= h.step < |h.entries|
    ensures r.0.entries == h.entries
    ensures h.step < |h.entries| - 1 ==> r.0.step == h.step + 1 && r.1 == Some(h.entries[h.step + 1])
    ensures h.step >= |h.entries| - 1 ==> r.0 == h && r.1 == None
  {
    if h.step < |h.entries| - 1 then (Log(h.entries, h.step + 1), Some(h.entries[h.step + 1]))
    else (h, None)
  }

  /** Undo and redo keep a well-formed history well-formed. */
  lemma UndoRedoKeepWellFormed<T>(h: Log<T>, capacity: nat)
    requires WellFormed(h, capacity)
    ensures WellFormed(Undone(h).0, capacity)
    ensures WellFormed(Redone(h).0, capacity)
  {
  }

  /** Redo after a successful undo returns to the same history and hands back
      the snapshot the cursor named before the undo. */
  lemma RedoAfterUndo<T>(h: Log<T>)
    requires 0 < h.step < |h.entries|
    ensures Redone(Undone(h).0).0 == h
    ensures Redone(Undone(h).0).1 == Some(h.entries[h.step])
  {
  }

  /** After a push at full capacity the oldest snapshot is gone, and undo can
      walk back only to the second-oldest one. */
  lemma PushEvictsOldest<T>(h: Log<T>, s: T, capacity: nat)
    requires WellFormed(h, capacity)
    requires |h.entries| == capacity && h.step == capacity - 1
    ensures PushedAtEnd(h, s, capacity).entries == h.entries[1..] + [s]
  {
    assert KeptPrefix(h.entries, h.step) == h.entries;
  }

  /** Capacity 3: committing A, B, C, D evicts A, and three undos end at B. */
  lemma {:induction false} ScenarioCapacityThree<T>(a: T, b: T, c: T, d: T)
    ensures var h := PushedAtEnd(PushedAtEnd(PushedAtEnd(PushedAtEnd(Empty(), a, 3), b, 3), c, 3), d, 3);
            && h.entries == [b, c, d]
            && Undone(Undone(Undone(h).0).0).0.step == 0
            && Undone(Undone(h).0).1 == Some(b)
            && Undone(Undone(Undone(h).0).0).1 == None
  {
    var h0: Log<T> := Empty();
    var h1 := PushedAtEnd(h0, a, 3);
    assert h1.entries == [a];
    var h2 := PushedAtEnd(h1, b, 3);
    assert h2.entries == [a, b];
    var h3 := PushedAtEnd(h2, c, 3);
    assert h3.entries == [a, b, c];
    var h4 := PushedAtEnd(h3, d, 3);
    assert KeptPrefix(h3.entries, h3.step) + [d] == [a, b, c, d];
    assert h4.entries == [b, c, d];
  }

  /** A push after an undo discards the redo future: the snapshot that redo
      would have returned is no longer reachable by redo. */
  lemma PushDropsRedoFuture<T>(h: Log<T>, s: T, capacity: nat)
    requires WellFormed(h, capacity) && h.step < |h.entries| - 1
    ensures var r := PushedAtEnd(h, s, capacity);
            Redone(r).1 == None && |r.entries| <= h.step + 2
  {
  }

  /** Undo straight after a push returns the snapshot the cursor named
      before the push, even when the push evicted the oldest entry, as long
      as the capacity holds at least two snapshots. */
  lemma UndoAfterPush<T>(h: Log<T>, s: T, capacity: nat)
    requires WellFormed(h, capacity) && capacity >= 2 && h.step >= 0
    ensures Undone(PushedAdvanced(h, s, capacity)).1 == Some(h.entries[h.step])
  {
    CursorRulesAgree(h, s, capacity);
    var kept := KeptPrefix(h.entries, h.step) + [s];
    assert |kept| == h.step + 2;
    var r := PushedAdvanced(h, s, capacity);
    if |kept| > capacity {
      assert r.entries == kept[1..];
      assert r.entries[r.step - 1] == kept[r.step];
    } else {
      assert r.entries == kept;
    }
  }

  /** The editor-side object: the history list is a `seq` field that every
      operation reassigns, and the cursor an `int` field. */
  class History<T> {
    const capacity: nat
    var entries: seq<T>
    var step: int

    ghost predicate Valid()
      reads this
    {
      WellFormed(Log(entries, step), capacity)
    }

    function State(): Log<T>
      reads this
    {
      Log(entries, step)
    }

    constructor (capacity: nat)
      requires capacity >= 1
      ensures Valid() && this.capacity == capacity
      ensures entries == [] && step == -1
    {
      this.capacity := capacity;
      entries := [];
      step := -1;
    }

    /** VideoStudio's `pushToHistory`. */
    method PushAtEnd(s: T)
      requires Valid()
      modifies this
      ensures Valid()
      ensures State() == PushedAtEnd(old(State()), s, capacity)
    {
      var newHistory := Appended(entries, step, s, capacity);
      entries := newHistory;
      step := |newHistory| - 1;
    }

    /** AudioStudio's `pushToHistory` and ImageStudio's `saveHistory`. */
    method PushAdvance(s: T)
      requires Valid()
      modifies this
      ensures Valid()
      ensures State() == PushedAdvanced(old(State()), s, capacity)
    {
      CursorRulesAgree(State(), s, capacity);
      entries := Appended(entries, step, s, capacity);
      step := if step + 1 <= capacity - 1 then step + 1 else capacity - 1;
    }

    /** ImageStudio loading a new picture: `setHistory([data])`, cursor 0. */
    method Reset(s: T)
      requires Valid()
      modifies this
      ensures Valid()
      ensures entries == [s] && step == 0
    {
      entries := [s];
      step := 0;
    }

    method Undo() returns (restored: Option<T>)
      requires Valid()
      modifies this
      ensures Valid()
      ensures (State(), restored) == Undone(old(State()))
    {
      restored := None;
      if step > 0 {
        restored := Some(entries[step - 1]);
        step := step - 1;
      }
    }

    method Redo() returns (restored: Option<T>)
      requires Valid()
      modifies this
      ensures Valid()
      ensures (State(), restored) == Redone(old(State()))
    {
      restored := None;
      if step < |entries| - 1 {
        restored := Some(entries[step + 1]);
        step := step + 1;
      }
    }
  }
}
