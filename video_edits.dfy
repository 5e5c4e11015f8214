/** The layer-list and transition-list edits of the video editor
    (VideoStudio.tsx): reordering, removal, keyframes, animation presets,
    transitions, split, paste and new text layers. An edit that the source
    abandons early (no selection, no such layer, playhead outside the layer)
    returns `None`; the editor then leaves its state and history alone. */
module VideoEdits {
  import opened Numeric
  import opened Keyframes
  import opened VideoTimeline

  // ---------------------------------------------------------------------
  // moveLayer

  datatype Direction = Up | Down

  /** The index `moveLayer` swaps with, if any: 'up' swaps with the next
      entry when 0 < index < length - 1, 'down' with the previous one when
      index > 0. */
  function MoveTarget(len: int, index: int, dir: Direction): (r: Option<int>)
    ensures r.Some? ==> 0 <= r.value < len && 0 <= index < len && (r.value == index + 1 || r.value == index - 1)
    ensures dir == Up ==> (r.Some? <==> 0 < index < len - 1)
    ensures dir == Down ==> (r.Some? <==> 0 < index < len)
  {
    match dir
    case Up => if index > 0 && index < len - 1 then Some(index + 1) else None
    case Down => if index > 0 && index < len then Some(index - 1) else None
  }

  /** The list with entries i and j exchanged. */
  function Swapped<T>(s: seq<T>, i: int, j: int): (r: seq<T>)
    requires 0 <= i < |s| && 0 <= j < |s|
    ensures |r| == |s| && r[i] == s[j] && r[j] == s[i]
    ensures forall k :: 0 <= k < |s| && k != i && k != j ==> r[k] == s[k]
  {
    s[i := s[j]][j := s[i]]
  }

  lemma SwappedIsPermutation<T>(s: seq<T>, i: int, j: int)
    requires 0 <= i < |s| && 0 <= j < |s|
    ensures multiset(Swapped(s, i, j)) == multiset(s)
  {
  }

  /** `moveLayer`: copies the list into an array, swaps two neighbours when
      the direction and index allow it, and reports whether it changed
      anything (only then does the editor commit to its history). */
  method MoveLayer(layers: seq<Layer>, index: int, dir: Direction) returns (newLayers: seq<Layer>, changed: bool)
    requires 0 <= index < |layers|
    ensures changed <==> MoveTarget(|layers|, index, dir).Some?
    ensures changed ==> newLayers == Swapped(layers, index, MoveTarget(|layers|, index, dir).value)
    ensures !changed ==> newLayers == layers
    ensures multiset(newLayers) == multiset(layers)
  {
    var a := new Layer[|layers|](i requires 0 <= i < |layers| => layers[i]);
    changed := false;
    if dir == Up && index > 0 {
      if index < a.Length - 1 {
        a[index], a[index + 1] := a[index + 1], a[index];
        changed := true;
      }
    } else if dir == Down && index > 0 {
      a[index], a[index - 1] := a[index - 1], a[index];
      changed := true;
    }
    newLayers := a[..];
    if changed {
      SwappedIsPermutation(layers, index, MoveTarget(|layers|, index, dir).value);
    }
  }

  /** 'Up' on the first entry does nothing, although the button for it is
      enabled whenever the list has two or more entries (it is disabled only
      on the last entry). */
  lemma UpAtBottomIsNoOp(len: int)
    requires len >= 2
    ensures MoveTarget(len, 0, Up).None?
    ensures 0 != len - 1
  {
  }

  /** The evidently intended rule: 'up' swaps with the next entry whenever
      there is one. */
  function IntendedMoveTarget(len: int, index: int, dir: Direction): (r: Option<int>)
    requires 0 <= index < len
    ensures r.Some? ==> 0 <= r.value < len
    ensures dir == Up ==> (r.Some? <==> index < len - 1) && (r.Some? ==> r.value == index + 1)
    ensures dir == Down ==> (r.Some? <==> index > 0) && (r.Some? ==> r.value == index - 1)
  {
    match dir
    case Up => if index < len - 1 then Some(index + 1) else None
    case Down => if index > 0 then Some(index - 1) else None
  }

  /** Under the intended rule every enabled button moves its layer, and the
      two directions undo each other. */
  lemma IntendedMovesInvert<T>(s: seq<T>, index: int)
    requires 0 <= index < |s| - 1
    ensures IntendedMoveTarget(|s|, index, Up) == Some(index + 1)
    ensures IntendedMoveTarget(|s|, index + 1, Down) == Some(index)
    ensures Swapped(Swapped(s, index, index + 1), index + 1, index) == s
  {
  }

  /** The intended rule agrees with the written one everywhere except 'up'
      on the first entry. */
  lemma IntendedDiffersOnlyAtBottom(len: int, index: int, dir: Direction)
    requires 0 <= index < len
    ensures IntendedMoveTarget(len, index, dir) != MoveTarget(len, index, dir)
            <==> dir == Up && index == 0 && len >= 2
  {
  }

  // ---------------------------------------------------------------------
  // removeLayer

  /** `layers.filter(l => l.id !== id)`. */
  function RemoveLayer(layers: seq<Layer>, id: int): (r: seq<Layer>)
    ensures |r| <= |layers|
    decreases |layers|
  {
    if |layers| == 0 then []
    else
      var rest := RemoveLayer(layers[..|layers| - 1], id);
      if layers[|layers| - 1].id != id then rest + [layers[|layers| - 1]] else rest
  }

  /** The layers left are exactly those of another id. */
  lemma {:induction false} RemoveLayerMembers(layers: seq<Layer>, id: int)
    ensures forall l :: l in RemoveLayer(layers, id) <==> l in layers && l.id != id
    decreases |layers|
  {
    if |layers| > 0 {
      var init := layers[..|layers| - 1];
      RemoveLayerMembers(init, id);
      assert layers == init + [layers[|layers| - 1]];
    }
  }

  /** Removal keeps the relative order of the remaining layers: it acts on
      each part of a list separately. */
  lemma {:induction false} RemoveLayerConcat(a: seq<Layer>, b: seq<Layer>, id: int)
    ensures RemoveLayer(a + b, id) == RemoveLayer(a, id) + RemoveLayer(b, id)
    decreases |b|
  {
    if |b| == 0 {
      assert a + b == a;
    } else {
      var b' := b[..|b| - 1];
      var last := b[|b| - 1];
      RemoveLayerConcat(a, b', id);
      assert b == b' + [last];
      RemoveLayerConcatStep(a, b', last, id);
    }
  }

  lemma RemoveLayerConcatStep(a: seq<Layer>, p: seq<Layer>, last: Layer, id: int)
    requires RemoveLayer(a + p, id) == RemoveLayer(a, id) + RemoveLayer(p, id)
    ensures RemoveLayer(a + (p + [last]), id) == RemoveLayer(a, id) + RemoveLayer(p + [last], id)
  {
    assert a + (p + [last]) == (a + p) + [last];
    RemoveLayerSnoc(a + p, last, id);
    RemoveLayerSnoc(p, last, id);
    var ra, rp := RemoveLayer(a, id), RemoveLayer(p, id);
    if last.id != id {
      assert (ra + rp) + [last] == ra + (rp + [last]);
    }
  }

  /** One layer more at the end: it is kept exactly when its id differs. */
  lemma RemoveLayerSnoc(layers: seq<Layer>, l: Layer, id: int)
    ensures RemoveLayer(layers + [l], id)
         == if l.id != id then RemoveLayer(layers, id) + [l] else RemoveLayer(layers, id)
  {
    var s := layers + [l];
    assert s[..|s| - 1] == layers && s[|s| - 1] == l;
  }

  /** Removing an id that no layer carries leaves the list unchanged. */
  lemma {:induction false} RemoveAbsentLayer(layers: seq<Layer>, id: int)
    requires forall i :: 0 <= i < |layers| ==> layers[i].id != id
    ensures RemoveLayer(layers, id) == layers
    decreases |layers|
  {
    if |layers| > 0 {
      RemoveAbsentLayer(layers[..|layers| - 1], id);
      assert layers[..|layers| - 1] + [layers[|layers| - 1]] == layers;
    }
  }

  // ---------------------------------------------------------------------
  // addKeyframe

  /** The value a new keyframe holds: the layer's static value for that
      property, read with `??` and the defaults 1, 1, 0.5, 0.5. */
  function BaseValue(l: Layer, p: Property): real
  {
    match p
    case Opacity => OrElse(l.opacity, 1.0)
    case Scale => OrElse(l.scale, 1.0)
    case X => OrElse(l.x, 0.5)
    case Y => OrElse(l.y, 0.5)
  }

  /** `abs(x)` */
  function AbsR(x: real): (r: real)
    ensures r >= 0.0 && (r == x || r == -x)
  {
    if x >= 0.0 then x else -x
  }

  /** The filter of `addKeyframe`: keep a keyframe unless it animates the
      same property and lies within 0.1 s of the playhead. */
  function KeepAwayFrom(ks: seq<Keyframe>, pos: real, p: Property): (r: seq<Keyframe>)
    ensures forall k :: k in r <==> k in ks && (AbsR(k.time - pos) > 0.1 || k.property != p)
    decreases |ks|
  {
    if |ks| == 0 then []
    else
      var rest := KeepAwayFrom(ks[..|ks| - 1], pos, p);
      var k := ks[|ks| - 1];
      assert ks == ks[..|ks| - 1] + [k];
      if AbsR(k.time - pos) > 0.1 || k.property != p then rest + [k] else rest
  }

  /** The layer after `addKeyframe`: the nearby keyframes of that property
      removed and a new one at the playhead appended. */
  function WithKeyframe(l: Layer, p: Property, pos: real): (r: Layer)
    ensures r == l.(keyframes := r.keyframes)
    ensures |r.keyframes| > 0 && r.keyframes[|r.keyframes| - 1] == Keyframe(pos, BaseValue(l, p), p)
    ensures forall k | k in l.keyframes :: k.property != p ==> k in r.keyframes
    ensures forall k | k in r.keyframes[..|r.keyframes| - 1] ::
              k in l.keyframes && (k.property == p ==> AbsR(k.time - pos) > 0.1)
  {
    var kept := KeepAwayFrom(l.keyframes, pos, p);
    var ks := kept + [Keyframe(pos, BaseValue(l, p), p)];
    assert ks[..|ks| - 1] == kept;
    l.(keyframes := ks)
  }

  /** `addKeyframe`: only the layers with the given id change. */
  function AddKeyframe(layers: seq<Layer>, layerId: int, p: Property, pos: real): (r: seq<Layer>)
    ensures |r| == |layers|
    ensures forall i :: 0 <= i < |layers| && layers[i].id != layerId ==> r[i] == layers[i]
    ensures forall i :: 0 <= i < |layers| && layers[i].id == layerId ==> r[i] == WithKeyframe(layers[i], p, pos)
  {
    seq(|layers|, i requires 0 <= i < |layers| =>
      if layers[i].id == layerId then WithKeyframe(layers[i], p, pos) else layers[i])
  }

  lemma {:induction false} KeepAwayFromIdempotent(ks: seq<Keyframe>, pos: real, p: Property)
    ensures KeepAwayFrom(KeepAwayFrom(ks, pos, p), pos, p) == KeepAwayFrom(ks, pos, p)
    decreases |ks|
  {
    if |ks| > 0 {
      KeepAwayFromIdempotent(ks[..|ks| - 1], pos, p);
      var rest := KeepAwayFrom(ks[..|ks| - 1], pos, p);
      var k := ks[|ks| - 1];
      if AbsR(k.time - pos) > 0.1 || k.property != p {
        assert (rest + [k])[..|rest + [k]| - 1] == rest;
      }
    }
  }

  /** A keyframe of the property at the playhead itself is filtered out. */
  lemma KeepAwayDropsLast(kept: seq<Keyframe>, k: Keyframe, pos: real, p: Property)
    requires k.time == pos && k.property == p
    ensures KeepAwayFrom(kept + [k], pos, p) == KeepAwayFrom(kept, pos, p)
  {
    assert (kept + [k])[..|kept + [k]| - 1] == kept;
  }

  /** Adding the same keyframe twice at the same playhead is the same as
      adding it once: the second call replaces the first keyframe. */
  lemma AddKeyframeTwice(l: Layer, p: Property, pos: real)
    ensures WithKeyframe(WithKeyframe(l, p, pos), p, pos) == WithKeyframe(l, p, pos)
  {
    var kept := KeepAwayFrom(l.keyframes, pos, p);
    var k := Keyframe(pos, BaseValue(l, p), p);
    var once := WithKeyframe(l, p, pos);
    assert once.keyframes == kept + [k];
    assert BaseValue(once, p) == BaseValue(l, p);
    KeepAwayDropsLast(kept, k, pos, p);
    KeepAwayFromIdempotent(l.keyframes, pos, p);
  }

  // ---------------------------------------------------------------------
  // applyAnimationPreset

  /** The presets other than `shake`, which uses random values. */
  datatype Preset = PresetFadeIn | PresetFadeOut | SlideLeft | ZoomIn

  /** The two keyframes each preset appends, for a layer spanning
      [start, end]. */
  function PresetKeyframes(p: Preset, start: real, end: real): (r: seq<Keyframe>)
    ensures |r| == 2 && r[0].property == r[1].property
    ensures p == PresetFadeIn ==> r == [Keyframe(start, 0.0, Opacity), Keyframe(start + 1.0, 1.0, Opacity)]
    ensures p == PresetFadeOut ==> r == [Keyframe(end - 1.0, 1.0, Opacity), Keyframe(end, 0.0, Opacity)]
    ensures p == SlideLeft ==> r == [Keyframe(start, 1.2, X), Keyframe(start + 1.0, 0.5, X)]
    ensures p == ZoomIn ==> r == [Keyframe(start, 0.0, Scale), Keyframe(start + 1.0, 1.0, Scale)]
    ensures r[0].time + 1.0 == r[1].time
  {
    match p
    case PresetFadeIn => [Keyframe(start, 0.0, Opacity), Keyframe(start + 1.0, 1.0, Opacity)]
    case PresetFadeOut => [Keyframe(end - 1.0, 1.0, Opacity), Keyframe(end, 0.0, Opacity)]
    case SlideLeft => [Keyframe(start, 1.2, X), Keyframe(start + 1.0, 0.5, X)]
    case ZoomIn => [Keyframe(start, 0.0, Scale), Keyframe(start + 1.0, 1.0, Scale)]
  }

  /** `duration || d`: a duration of 0 stands for an absent one. */
  function DurationOr(l: Layer, d: real): real
  {
    if l.duration != 0.0 then l.duration else d
  }

  /** `applyAnimationPreset`: nothing when no layer has the id; otherwise
      every layer with that id gets the keyframes of the first one followed
      by the two keyframes of the preset. */
  function ApplyAnimationPreset(layers: seq<Layer>, layerId: int, p: Preset): (r: Option<seq<Layer>>)
    ensures r.None? <==> FindLayer(layers, layerId).None?
    ensures r.Some? ==>
              var l := FindLayer(layers, layerId).value;
              var added := PresetKeyframes(p, l.startTime, l.startTime + DurationOr(l, 5.0));
              && |r.value| == |layers|
              && forall i :: 0 <= i < |layers| ==>
                   r.value[i] == if layers[i].id == layerId then layers[i].(keyframes := l.keyframes + added)
                                 else layers[i]
  {
    var found := FindLayer(layers, layerId);
    if found.None? then None
    else
      var l := found.value;
      var start := l.startTime;
      var end := start + DurationOr(l, 5.0);
      var newKf := l.keyframes + PresetKeyframes(p, start, end);
      Some(seq(|layers|, i requires 0 <= i < |layers| =>
        if layers[i].id == layerId then layers[i].(keyframes := newKf) else layers[i]))
  }

  /** The opacity of a layer whose only keyframes are a and b, in that
      order, without transitions. */
  lemma TwoKeyframeOpacity(l: Layer, a: Keyframe, b: Keyframe, t: real)
    requires l.keyframes == [a, b] && a.time < b.time && l.opacity == Some(1.0)
    ensures t <= a.time ==> LayerOpacity(l, [], t) == Clamp(a.value, 0.0, 1.0)
    ensures t >= b.time ==> LayerOpacity(l, [], t) == Clamp(b.value, 0.0, 1.0)
  {
    SortOfSortedIsIdentity([a, b]);
    assert UnclampedOpacity(l, [], t) == 1.0 * CurveFactor([a, b], t) * 1.0;
  }

  /** The fade-in preset on a layer without keyframes and with opacity 1 (and
      no transitions) makes the layer transparent at its start and opaque
      from one second later on. */
  lemma FadeInPresetCurve(l: Layer, t: real)
    requires l.keyframes == [] && l.opacity == Some(1.0)
    ensures var l' := l.(keyframes := PresetKeyframes(PresetFadeIn, l.startTime, l.startTime + DurationOr(l, 5.0)));
            && LayerOpacity(l', [], l.startTime) == 0.0
            && (t >= l.startTime + 1.0 ==> LayerOpacity(l', [], t) == 1.0)
  {
    var ks := PresetKeyframes(PresetFadeIn, l.startTime, l.startTime + DurationOr(l, 5.0));
    var l' := l.(keyframes := ks);
    TwoKeyframeOpacity(l', ks[0], ks[1], l.startTime);
    TwoKeyframeOpacity(l', ks[0], ks[1], t);
  }

  /** The fade-out preset on such a layer, ending at `end` (the start plus
      `duration || 5` in `applyAnimationPreset`), leaves it opaque until one
      second before its end and transparent from its end on. */
  lemma FadeOutPresetCurve(l: Layer, end: real, t: real)
    requires l.keyframes == [] && l.opacity == Some(1.0)
    ensures var l' := l.(keyframes := PresetKeyframes(PresetFadeOut, l.startTime, end));
            && (t <= end - 1.0 ==> LayerOpacity(l', [], t) == 1.0)
            && (t >= end ==> LayerOpacity(l', [], t) == 0.0)
  {
    var ks := PresetKeyframes(PresetFadeOut, l.startTime, end);
    var l' := l.(keyframes := ks);
    TwoKeyframeOpacity(l', ks[0], ks[1], t);
  }

  // ---------------------------------------------------------------------
  // addTransition

  function MinR1(a: real): (r: real)
    ensures r <= 1.0 && r <= a && (r == 1.0 || r == a)
  {
    MinR(1.0, a)
  }

  /** The transitions other than those of the layer with the given kind. */
  function WithoutKind(trs: seq<Transition>, layerId: int, kind: TransitionKind): (r: seq<Transition>)
    ensures forall tr :: tr in r <==> tr in trs && !(tr.layerId == layerId && tr.kind == kind)
    decreases |trs|
  {
    if |trs| == 0 then []
    else
      var rest := WithoutKind(trs[..|trs| - 1], layerId, kind);
      var tr := trs[|trs| - 1];
      assert trs == trs[..|trs| - 1] + [tr];
      if !(tr.layerId == layerId && tr.kind == kind) then rest + [tr] else rest
  }

  /** The transition `addTransition` creates for a layer: at most one second
      long; a fade-in starts with the layer, anything else ends with it. */
  function NewTransition(l: Layer, kind: TransitionKind, newId: int): (tr: Transition)
    ensures tr.layerId == l.id && tr.kind == kind && tr.id == newId
    ensures tr.duration == MinR(1.0, DurationOr(l, 120.0))
    ensures kind == FadeIn ==> tr.startTime == l.startTime
    ensures kind != FadeIn ==> tr.startTime + tr.duration == l.startTime + DurationOr(l, 120.0)
  {
    var duration := MinR(1.0, DurationOr(l, 120.0));
    var startTime := if kind == FadeIn then l.startTime else l.startTime + DurationOr(l, 120.0) - duration;
    Transition(newId, l.id, kind, startTime, duration)
  }

  /** `addTransition`: nothing without a selected, existing layer; otherwise
      the layer's transitions of that kind are replaced by one new one,
      appended at the end. */
  function AddTransition(trs: seq<Transition>, layers: seq<Layer>, selected: int, kind: TransitionKind, newId: int)
    : (r: Option<seq<Transition>>)
    ensures r.None? <==> selected == 0 || FindLayer(layers, selected).None?
    ensures r.Some? ==>
              var l := FindLayer(layers, selected).value;
              && |r.value| > 0 && r.value[|r.value| - 1] == NewTransition(l, kind, newId)
              && forall tr :: tr in r.value[..|r.value| - 1] <==> tr in trs && !(tr.layerId == l.id && tr.kind == kind)
  {
    if selected == 0 then None
    else
      var found := FindLayer(layers, selected);
      if found.None? then None
      else
        var clean := WithoutKind(trs, found.value.id, kind);
        var s := clean + [NewTransition(found.value, kind, newId)];
        assert s[..|s| - 1] == clean;
        Some(s)
  }

  /** The number of transitions of a layer with a given kind. */
  function CountKind(trs: seq<Transition>, layerId: int, kind: TransitionKind): nat
    decreases |trs|
  {
    if |trs| == 0 then 0
    else CountKind(trs[..|trs| - 1], layerId, kind)
         + (if trs[|trs| - 1].layerId == layerId && trs[|trs| - 1].kind == kind then 1 else 0)
  }

  lemma {:induction false} WithoutKindCount(trs: seq<Transition>, layerId: int, kind: TransitionKind)
    ensures CountKind(WithoutKind(trs, layerId, kind), layerId, kind) == 0
    decreases |trs|
  {
    if |trs| > 0 {
      WithoutKindCount(trs[..|trs| - 1], layerId, kind);
      var rest := WithoutKind(trs[..|trs| - 1], layerId, kind);
      var tr := trs[|trs| - 1];
      if !(tr.layerId == layerId && tr.kind == kind) {
        assert (rest + [tr])[..|rest + [tr]| - 1] == rest;
      }
    }
  }

  /** After `addTransition` the layer has exactly one transition of that
      kind. */
  lemma AddTransitionLeavesOne(trs: seq<Transition>, layers: seq<Layer>, selected: int, kind: TransitionKind, newId: int)
    requires AddTransition(trs, layers, selected, kind, newId).Some?
    ensures CountKind(AddTransition(trs, layers, selected, kind, newId).value,
                      FindLayer(layers, selected).value.id, kind) == 1
  {
    var l := FindLayer(layers, selected).value;
    var clean := WithoutKind(trs, l.id, kind);
    WithoutKindCount(trs, l.id, kind);
    var s := clean + [NewTransition(l, kind, newId)];
    assert s[..|s| - 1] == clean;
  }

  // ---------------------------------------------------------------------
  // handleSplitLayer

  /** `handleSplitLayer`: with the playhead strictly inside the selected
      layer, that layer is cut short at the playhead and a copy covering the
      rest is appended. `videoDuration` is the media duration, 0 when it is
      not known. */
  function SplitLayer(layers: seq<Layer>, selected: int, pos: real, videoDuration: real, newId: int)
    : (r: Option<seq<Layer>>)
    ensures r.None? <==>
              || selected == 0 || FindLayer(layers, selected).None?
              || var l := FindLayer(layers, selected).value;
                 var d := DurationOr(l, if videoDuration != 0.0 then videoDuration else 120.0);
                 !(l.startTime < pos < l.startTime + d)
    ensures r.Some? ==>
              var l := FindLayer(layers, selected).value;
              var d := DurationOr(l, if videoDuration != 0.0 then videoDuration else 120.0);
              && |r.value| == |layers| + 1
              && (forall i :: 0 <= i < |layers| ==>
                    r.value[i] == if layers[i].id == selected then layers[i].(duration := pos - l.startTime)
                                  else layers[i])
              && r.value[|layers|] == l.(id := newId, startTime := pos, duration := l.startTime + d - pos,
                                         name := l.name + " (Copy)")
  {
    if selected == 0 then None
    else
      var found := FindLayer(layers, selected);
      if found.None? then None
      else
        var l := found.value;
        var start := l.startTime;
        var duration := DurationOr(l, if videoDuration != 0.0 then videoDuration else 120.0);
        var end := start + duration;
        if pos > start && pos < end then
          var second := l.(id := newId, startTime := pos, duration := end - pos, name := l.name + " (Copy)");
          Some(seq(|layers|, i requires 0 <= i < |layers| =>
                 if layers[i].id == selected then layers[i].(duration := pos - start) else layers[i])
               + [second])
        else None
  }

  /** The two parts of a split are both non-empty, meet at the playhead and
      together span exactly the original layer. */
  lemma SplitPartsCover(layers: seq<Layer>, selected: int, pos: real, videoDuration: real, newId: int)
    requires SplitLayer(layers, selected, pos, videoDuration, newId).Some?
    ensures var l := FindLayer(layers, selected).value;
            var d := DurationOr(l, if videoDuration != 0.0 then videoDuration else 120.0);
            var r := SplitLayer(layers, selected, pos, videoDuration, newId).value;
            exists i :: 0 <= i < |layers| && layers[i] == l &&
              var first := r[i];
              var second := r[|layers|];
              && first.startTime == l.startTime && first.duration > 0.0
              && second.startTime == first.startTime + first.duration
              && second.duration > 0.0
              && first.duration + second.duration == d
  {
  }

  // ---------------------------------------------------------------------
  // handlePaste and handleAddTextLayer

  /** `handlePaste`: a copy of the clipboard layer with a new id, the name
      suffixed with " (Copy)" and the playhead as start, appended on top. */
  function Paste(layers: seq<Layer>, clipboard: Option<Layer>, pos: real, newId: int): (r: Option<seq<Layer>>)
    ensures r.None? <==> clipboard.None?
    ensures r.Some? ==> |r.value| == |layers| + 1 && r.value[..|layers|] == layers
    ensures r.Some? ==> r.value[|layers|] == clipboard.value.(id := newId, name := clipboard.value.name + " (Copy)", startTime := pos)
  {
    if clipboard.None? then None
    else
      var c := clipboard.value;
      var s := layers + [c.(id := newId, name := c.name + " (Copy)", startTime := pos)];
      assert s[..|layers|] == layers;
      Some(s)
  }

  /** The text layer `handleAddTextLayer` creates. */
  function NewTextLayer(pos: real, newId: int): (l: Layer)
    ensures l.kind == TextLayer && l.visible && l.startTime == pos && l.duration == 5.0 && l.keyframes == []
    ensures l.opacity == Some(1.0) && l.scale == Some(1.0) && l.x == Some(0.5) && l.y == Some(0.5)
  {
    Layer(newId, TextLayer, "Text Layer", true, Some(1.0), Some(0.5), Some(0.5), Some(1.0), pos, 5.0, [])
  }

  /** `handleAddTextLayer`: the new layer goes first in the list, that is at
      the bottom of the drawing order. */
  function AddTextLayer(layers: seq<Layer>, pos: real, newId: int): (r: seq<Layer>)
    ensures |r| == |layers| + 1 && r[0] == NewTextLayer(pos, newId) && r[1..] == layers
  {
    [NewTextLayer(pos, newId)] + layers
  }

  /** Removing a freshly pasted or added layer by its new id gives back the
      list from before. */
  lemma RemoveUndoesPasteAndAdd(layers: seq<Layer>, c: Layer, pos: real, newId: int)
    requires forall i :: 0 <= i < |layers| ==> layers[i].id != newId
    ensures RemoveLayer(Paste(layers, Some(c), pos, newId).value, newId) == layers
    ensures RemoveLayer(AddTextLayer(layers, pos, newId), newId) == layers
  {
    var pasted := c.(id := newId, name := c.name + " (Copy)", startTime := pos);
    RemoveLayerConcat(layers, [pasted], newId);
    RemoveAbsentLayer(layers, newId);
    assert RemoveLayer([pasted], newId) == [] by {
      assert [pasted][..0] == [];
    }
    var t := NewTextLayer(pos, newId);
    RemoveLayerConcat([t], layers, newId);
    assert RemoveLayer([t], newId) == [] by {
      assert [t][..0] == [];
    }
  }
}
