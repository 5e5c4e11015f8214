/** The video editor's state and its snapshot history (VideoStudio.tsx):
    the live layer and transition lists, the selection, the clipboard, and a
    20-entry history. Every edit first pushes the live state, then replaces
    it (`updateLayers`, `removeLayer`, `addKeyframe`, ...); undo and redo
    load the snapshot next to the cursor. */
module VideoSession {
  import opened Numeric
  import opened SnapshotHistory
  import opened Keyframes
  import opened VideoTimeline
  import opened VideoEdits

  /** What `pushToHistory` records. The colour adjustments and effect
      switches it also records are not part of this model. */
  datatype Snapshot = Snapshot(layers: seq<Layer>, transitions: seq<Transition>)

  const VideoHistoryLimit: nat := 20

  /** The layers of the first render: the main video track (id 1, 120
      seconds) and the title overlay (id 2, 5 seconds, at x 0.5, y 0.85). */
  const DefaultLayers: seq<Layer> := [
    Layer(1, VideoLayer, "Main Track", true, Some(1.0), None, None, None, 0.0, 120.0, []),
    Layer(2, TextLayer, "Title Overlay", true, Some(1.0), Some(0.5), Some(0.85), None, 0.0, 5.0, [])
  ]

  /** What the mount effect records, whatever project is loaded. */
  const MountSnapshot := Snapshot(DefaultLayers, [])

  class VideoEditor {
    var layers: seq<Layer>
    var transitions: seq<Transition>
    /** `selectedLayerId`; 0 means no selection. */
    var selected: int
    var clipboard: Option<Layer>
    const history: History<Snapshot>

    ghost predicate Valid()
      reads this, history
    {
      history.Valid() && history.capacity == VideoHistoryLimit
    }

    function Live(): Snapshot
      reads this
    {
      Snapshot(layers, transitions)
    }

    /** The editor on mount. The first render shows the two demo layers, no
        transitions and the main track selected; the mount effect's single
        `pushToHistory` records that first render's lists. Only afterwards
        does the project-loading effect replace the layers and the
        transitions with the loaded project's, for each one it carries. */
    constructor (projectLayers: Option<seq<Layer>>, projectTransitions: Option<seq<Transition>>)
      ensures Valid() && fresh(history)
      ensures layers == (if projectLayers.Some? then projectLayers.value else DefaultLayers)
      ensures transitions == (if projectTransitions.Some? then projectTransitions.value else [])
      ensures selected == 1 && clipboard == None
      ensures history.State() == Log([MountSnapshot], 0)
    {
      layers := DefaultLayers;
      transitions := [];
      selected := 1;
      clipboard := None;
      history := new History(VideoHistoryLimit);
      new;
      history.PushAtEnd(Live());
      if projectLayers.Some? {
        layers := projectLayers.value;
      }
      if projectTransitions.Some? {
        transitions := projectTransitions.value;
      }
    }

    /** `pushToHistory`: records the live state. */
    method PushToHistory()
      requires Valid()
      modifies history
      ensures Valid()
      ensures history.State() == PushedAtEnd(old(history.State()), Live(), VideoHistoryLimit)
    {
      history.PushAtEnd(Live());
    }

    /** `updateLayers`: push the live state, then replace the layers. */
    method UpdateLayers(newLayers: seq<Layer>)
      requires Valid()
      modifies this, history
      ensures Valid()
      ensures history.State() == PushedAtEnd(old(history.State()), old(Live()), VideoHistoryLimit)
      ensures layers == newLayers && transitions == old(transitions)
      ensures selected == old(selected) && clipboard == old(clipboard)
    {
      PushToHistory();
      layers := newLayers;
    }

    /** `handleUndo`: with the cursor above 0, load the snapshot below it. */
    method Undo()
      requires Valid()
      modifies this, history
      ensures Valid()
      ensures history.State() == Undone(old(history.State())).0
      ensures var restored := Undone(old(history.State())).1;
              && (restored.Some? ==> Live() == restored.value)
              && (restored.None? ==> Live() == old(Live()))
      ensures selected == old(selected) && clipboard == old(clipboard)
    {
      var restored := history.Undo();
      if restored.Some? {
        layers := restored.value.layers;
        transitions := restored.value.transitions;
      }
    }

    /** `handleRedo`: with the cursor below the last entry, load the
        snapshot above it. */
    method Redo()
      requires Valid()
      modifies this, history
      ensures Valid()
      ensures history.State() == Redone(old(history.State())).0
      ensures var restored := Redone(old(history.State())).1;
              && (restored.Some? ==> Live() == restored.value)
              && (restored.None? ==> Live() == old(Live()))
      ensures selected == old(selected) && clipboard == old(clipboard)
    {
      var restored := history.Redo();
      if restored.Some? {
        layers := restored.value.layers;
        transitions := restored.value.transitions;
      }
    }

    /** `moveLayer`: a swap commits through `updateLayers`; a refused move
        changes nothing, history included. */
    method MoveLayer(index: int, dir: Direction)
      requires Valid() && 0 <= index < |layers|
      modifies this, history
      ensures Valid()
      ensures var target := MoveTarget(|old(layers)|, index, dir);
              && (target.Some? ==> (layers == Swapped(old(layers), index, target.value)
                                    && history.State() == PushedAtEnd(old(history.State()), old(Live()), VideoHistoryLimit)))
              && (target.None? ==> layers == old(layers) && history.State() == old(history.State()))
      ensures transitions == old(transitions) && selected == old(selected) && clipboard == old(clipboard)
    {
      var newLayers, changed := VideoEdits.MoveLayer(layers, index, dir);
      if changed {
        UpdateLayers(newLayers);
      }
    }

    /** `removeLayer`: push, drop every layer with the id, and clear the
        selection when it named that id. */
    method RemoveLayer(id: int)
      requires Valid()
      modifies this, history
      ensures Valid()
      ensures history.State() == PushedAtEnd(old(history.State()), old(Live()), VideoHistoryLimit)
      ensures layers == VideoEdits.RemoveLayer(old(layers), id) && transitions == old(transitions)
      ensures selected == (if old(selected) == id then 0 else old(selected))
      ensures clipboard == old(clipboard)
    {
      PushToHistory();
      layers := VideoEdits.RemoveLayer(layers, id);
      if selected == id {
        selected := 0;
      }
    }

    /** `handleDelete`: remove the selected layer, if any. */
    method Delete()
      requires Valid()
      modifies this, history
      ensures Valid()
      ensures old(selected) == 0 ==>
                layers == old(layers) && selected == 0 && history.State() == old(history.State())
      ensures old(selected) != 0 ==>
                layers == VideoEdits.RemoveLayer(old(layers), old(selected)) && selected == 0
                && history.State() == PushedAtEnd(old(history.State()), old(Live()), VideoHistoryLimit)
      ensures transitions == old(transitions) && clipboard == old(clipboard)
    {
      if selected != 0 {
        RemoveLayer(selected);
      }
    }

    /** `handleCopy`: the selected layer goes to the clipboard. */
    method Copy()
      requires Valid()
      modifies this
      ensures Valid()
      ensures var found := FindLayer(layers, selected);
              clipboard == if found.Some? then found else old(clipboard)
      ensures layers == old(layers) && transitions == old(transitions) && selected == old(selected)
    {
      var found := FindLayer(layers, selected);
      if found.Some? {
        clipboard := found;
      }
    }

    /** `handleCut`: copy the selected layer, then remove it. */
    method Cut()
      requires Valid()
      modifies this, history
      ensures Valid()
      ensures var found := FindLayer(old(layers), old(selected));
              && (found.None? ==> (layers == old(layers) && clipboard == old(clipboard)
                                   && selected == old(selected) && history.State() == old(history.State())))
              && (found.Some? ==> (clipboard == found && selected == 0
                                   && layers == VideoEdits.RemoveLayer(old(layers), found.value.id)
                                   && history.State() == PushedAtEnd(old(history.State()), old(Live()), VideoHistoryLimit)))
      ensures transitions == old(transitions)
    {
      var found := FindLayer(layers, selected);
      if found.Some? {
        clipboard := found;
        RemoveLayer(found.value.id);
      }
    }

    /** `handlePaste`. The source calls `pushToHistory` and then
        `updateLayers`, which pushes again; both calls read the same history
        and cursor, so the second one stores the same list as the first and
        the effect is a single push. */
    method Paste(pos: real, newId: int)
      requires Valid()
      modifies this, history
      ensures Valid()
      ensures var r := VideoEdits.Paste(old(layers), old(clipboard), pos, newId);
              && (r.None? ==> (layers == old(layers) && selected == old(selected)
                               && history.State() == old(history.State())))
              && (r.Some? ==> (layers == r.value && selected == newId
                               && history.State() == PushedAtEnd(old(history.State()), old(Live()), VideoHistoryLimit)))
      ensures transitions == old(transitions) && clipboard == old(clipboard)
    {
      var r := VideoEdits.Paste(layers, clipboard, pos, newId);
      if r.Some? {
        UpdateLayers(r.value);
        selected := newId;
      }
    }

    /** `handleAddTextLayer`: a new text layer at the playhead, first in the
        list, and selected. */
    method AddTextLayer(pos: real, newId: int)
      requires Valid()
      modifies this, history
      ensures Valid()
      ensures layers == VideoEdits.AddTextLayer(old(layers), pos, newId) && selected == newId
      ensures history.State() == PushedAtEnd(old(history.State()), old(Live()), VideoHistoryLimit)
      ensures transitions == old(transitions) && clipboard == old(clipboard)
    {
      UpdateLayers(VideoEdits.AddTextLayer(layers, pos, newId));
      selected := newId;
    }

    /** `addKeyframe`: push, then add the keyframe to the layers with the id. */
    method AddKeyframe(layerId: int, p: Property, pos: real)
      requires Valid()
      modifies this, history
      ensures Valid()
      ensures layers == VideoEdits.AddKeyframe(old(layers), layerId, p, pos)
      ensures history.State() == PushedAtEnd(old(history.State()), old(Live()), VideoHistoryLimit)
      ensures transitions == old(transitions) && selected == old(selected) && clipboard == old(clipboard)
    {
      PushToHistory();
      layers := VideoEdits.AddKeyframe(layers, layerId, p, pos);
    }

    /** `applyAnimationPreset`: nothing for an unknown id; otherwise push and
        append the preset's keyframes. */
    method ApplyAnimationPreset(layerId: int, preset: Preset)
      requires Valid()
      modifies this, history
      ensures Valid()
      ensures var r := VideoEdits.ApplyAnimationPreset(old(layers), layerId, preset);
              && (r.None? ==> layers == old(layers) && history.State() == old(history.State()))
              && (r.Some? ==> (layers == r.value
                               && history.State() == PushedAtEnd(old(history.State()), old(Live()), VideoHistoryLimit)))
      ensures transitions == old(transitions) && selected == old(selected) && clipboard == old(clipboard)
    {
      var r := VideoEdits.ApplyAnimationPreset(layers, layerId, preset);
      if r.Some? {
        PushToHistory();
        layers := r.value;
      }
    }

    /** `handleSplitLayer`: push, split the selected layer at the playhead,
        select the second part. */
    method SplitLayer(pos: real, videoDuration: real, newId: int)
      requires Valid()
      modifies this, history
      ensures Valid()
      ensures var r := VideoEdits.SplitLayer(old(layers), old(selected), pos, videoDuration, newId);
              && (r.None? ==> (layers == old(layers) && selected == old(selected)
                               && history.State() == old(history.State())))
              && (r.Some? ==> (layers == r.value && selected == newId
                               && history.State() == PushedAtEnd(old(history.State()), old(Live()), VideoHistoryLimit)))
      ensures transitions == old(transitions) && clipboard == old(clipboard)
    {
      var r := VideoEdits.SplitLayer(layers, selected, pos, videoDuration, newId);
      if r.Some? {
        PushToHistory();
        layers := r.value;
        selected := newId;
      }
    }

    /** `addTransition`: push, then replace the selected layer's transition
        of that kind. */
    method AddTransition(kind: TransitionKind, newId: int)
      requires Valid()
      modifies this, history
      ensures Valid()
      ensures var r := VideoEdits.AddTransition(old(transitions), old(layers), old(selected), kind, newId);
              && (r.None? ==> transitions == old(transitions) && history.State() == old(history.State()))
              && (r.Some? ==> (transitions == r.value
                               && history.State() == PushedAtEnd(old(history.State()), old(Live()), VideoHistoryLimit)))
      ensures layers == old(layers) && selected == old(selected) && clipboard == old(clipboard)
    {
      var r := VideoEdits.AddTransition(transitions, layers, selected, kind, newId);
      if r.Some? {
        PushToHistory();
        transitions := r.value;
      }
    }
  }

  // ---------------------------------------------------------------------
  // Undo after edits, as written and as intended.

  /** One edit as the editor performs it: the live state before the edit is
      pushed, and the edited state becomes live. */
  function EditAsWritten(h: Log<Snapshot>, live: Snapshot, next: Snapshot): (r: (Log<Snapshot>, Snapshot))
    requires WellFormed(h, VideoHistoryLimit)
    ensures WellFormed(r.0, VideoHistoryLimit) && r.1 == next
    ensures 0 <= r.0.step < |r.0.entries| && r.0.entries[r.0.step] == live
  {
    (PushedAtEnd(h, live, VideoHistoryLimit), next)
  }

  /** As written, undo after two edits skips a state: from the mounted state
      s0, edits to s1 and then s2 leave the history [s0, s0, s1], and undo
      loads s0 instead of s1; the redo that follows loads s1, and s2 can no
      longer be reached. */
  lemma {:induction false} UndoAfterTwoEditsSkipsState(s0: Snapshot, s1: Snapshot, s2: Snapshot)
    ensures var h0 := PushedAtEnd(Empty(), s0, VideoHistoryLimit);
            var (h1, live1) := EditAsWritten(h0, s0, s1);
            var (h2, live2) := EditAsWritten(h1, live1, s2);
            && live2 == s2
            && h2.entries == [s0, s0, s1] && h2.step == 2
            && Undone(h2).1 == Some(s0)
            && Redone(Undone(h2).0).1 == Some(s1)
            && Redone(Redone(Undone(h2).0).0).1 == None
  {
    var h0 := PushedAtEnd(Empty(), s0, VideoHistoryLimit);
    assert h0.entries == [s0];
    var h1 := PushedAtEnd(h0, s0, VideoHistoryLimit);
    assert h1.entries == [s0, s0];
    var h2 := PushedAtEnd(h1, s1, VideoHistoryLimit);
    assert h2.entries == [s0, s0, s1];
  }

  /** The mount snapshot is the first render's demo, not a loaded project:
      after loading `project`, one edit and then undo show the demo layers
      again, and redo then shows the project. */
  lemma LoadedProjectUndoesToDemo(project: Snapshot, next: Snapshot)
    ensures var (h1, live1) := EditAsWritten(Log([MountSnapshot], 0), project, next);
            && live1 == next
            && Undone(h1).1 == Some(MountSnapshot)
            && Redone(Undone(h1).0).1 == Some(project)
  {
    var h0 := Log([MountSnapshot], 0);
    assert WellFormed(h0, VideoHistoryLimit);
    var h1 := PushedAtEnd(h0, project, VideoHistoryLimit);
    assert h1.entries == [MountSnapshot, project];
  }

  /** The evident intent: commit the state after each edit, so that the
      cursor always names the live state. */
  function CommitEdit(h: Log<Snapshot>, next: Snapshot): (r: Log<Snapshot>)
    requires WellFormed(h, VideoHistoryLimit)
    ensures WellFormed(r, VideoHistoryLimit) && r.step >= 0 && r.entries[r.step] == next
  {
    PushedAtEnd(h, next, VideoHistoryLimit)
  }

  /** The history invariant the intended rule keeps: the cursor names the
      live state. */
  ghost predicate Tracks(h: Log<Snapshot>, live: Snapshot)
  {
    WellFormed(h, VideoHistoryLimit) && 0 <= h.step < |h.entries| && h.entries[h.step] == live
  }

  /** With commits after each edit, undo right after an edit restores the
      state from before it, and redo then brings the edit back; both keep
      the invariant. */
  lemma CommitThenUndoRestores(h: Log<Snapshot>, live: Snapshot, next: Snapshot)
    requires Tracks(h, live)
    ensures Tracks(CommitEdit(h, next), next)
    ensures Undone(CommitEdit(h, next)).1 == Some(live)
    ensures Tracks(Undone(CommitEdit(h, next)).0, live)
    ensures Redone(Undone(CommitEdit(h, next)).0).1 == Some(next)
    ensures Tracks(Redone(Undone(CommitEdit(h, next)).0).0, next)
  {
    var kept := KeptPrefix(h.entries, h.step);
    assert kept[h.step] == live;
    var r := CommitEdit(h, next);
    assert |kept + [next]| == h.step + 2;
    assert r.entries[r.step - 1] == live;
  }

  /** Undo keeps the intended invariant in general, whatever the history. */
  lemma UndoRedoTrack(h: Log<Snapshot>, live: Snapshot)
    requires Tracks(h, live)
    ensures var (u, restored) := Undone(h); Tracks(u, if restored.Some? then restored.value else live)
    ensures var (r, restored) := Redone(h); Tracks(r, if restored.Some? then restored.value else live)
  {
  }

  /** From the mounted state, two intended commits followed by undo restore
      the first edit's state, unlike the editor as written. */
  lemma {:induction false} UndoAfterTwoCommits(s0: Snapshot, s1: Snapshot, s2: Snapshot)
    ensures var h2 := CommitEdit(CommitEdit(PushedAtEnd(Empty(), s0, VideoHistoryLimit), s1), s2);
            Undone(h2).1 == Some(s1) && Undone(Undone(h2).0).1 == Some(s0)
  {
    var h0 := PushedAtEnd(Empty(), s0, VideoHistoryLimit);
    assert Tracks(h0, s0) by {
      assert h0.entries == [s0];
    }
    CommitThenUndoRestores(h0, s0, s1);
    var h1 := CommitEdit(h0, s1);
    CommitThenUndoRestores(h1, s1, s2);
    var h2 := CommitEdit(h1, s2);
    var (u, _) := Undone(h2);
    assert Tracks(u, s1);
    assert h1.step == 1 && h1.entries == [s0, s1];
    assert h2.entries == [s0, s1, s2];
  }
}
