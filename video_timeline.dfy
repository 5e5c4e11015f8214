/** The video editor's layer model and the per-frame opacity and activity
    rules of `calculateLayerOpacity` and `drawFrame` (VideoStudio.tsx). */
module VideoTimeline {
  import opened Numeric
  import opened Keyframes

  datatype LayerKind = VideoLayer | ImageLayer | TextLayer | AudioLayer

  /** A layer of the timeline. `opacity`, `x`, `y` and `scale` may be absent
      (the source reads them with `??`). A `startTime` of 0 and a `duration`
      of 0 also stand for an absent value: the source reads both with `||`,
      which treats 0 and a missing field alike. */
  datatype Layer = Layer(
    id: int,
    kind: LayerKind,
    name: string,
    visible: bool,
    opacity: Option<real>,
    x: Option<real>,
    y: Option<real>,
    scale: Option<real>,
    startTime: real,
    duration: real,
    keyframes: seq<Keyframe>)

  datatype TransitionKind = FadeIn | FadeOut | OtherTransition

  datatype Transition = Transition(id: int, layerId: int, kind: TransitionKind, startTime: real, duration: real)

  /** A value read with `??`. */
  function OrElse(o: Option<real>, d: real): (r: real)
    ensures o.None? ==> r == d
    ensures o.Some? ==> r == o.value
  {
    if o.Some? then o.value else d
  }

  /** `layers.find(l => l.id === id)`: the first layer with that id. */
  function FindLayer(layers: seq<Layer>, id: int): (r: Option<Layer>)
    ensures r.None? <==> forall i :: 0 <= i < |layers| ==> layers[i].id != id
    ensures r.Some? ==> exists i :: 0 <= i < |layers| && layers[i] == r.value && r.value.id == id
                                    && forall j :: 0 <= j < i ==> layers[j].id != id
  {
    if |layers| == 0 then None
    else if layers[0].id == id then Some(layers[0])
    else
      var rest := FindLayer(layers[1..], id);
      assert forall i :: 1 <= i < |layers| ==> layers[i] == layers[1..][i - 1];
      rest
  }

  /** A transition with duration 0 would divide 0 by 0 at its start time;
      the model keeps transitions away from that case. */
  ghost predicate NonZeroDurations(trs: seq<Transition>)
  {
    forall i :: 0 <= i < |trs| ==> trs[i].duration != 0.0
  }

  /** The filter of `calculateLayerOpacity`: the transition belongs to the
      layer and its window, closed at both ends, contains t. */
  predicate Covers(tr: Transition, layerId: int, t: real)
  {
    tr.layerId == layerId && t >= tr.startTime && t <= tr.startTime + tr.duration
  }

  /** The factor one transition applies: p for a fade-in, 1 - p for a
      fade-out, where p is the fraction of the window already elapsed. */
  function FadeFactor(tr: Transition, t: real): real
    requires tr.duration != 0.0
  {
    var p := (t - tr.startTime) / tr.duration;
    match tr.kind
    case FadeIn => p
    case FadeOut => 1.0 - p
    case OtherTransition => 1.0
  }

  function StepFactor(tr: Transition, layerId: int, t: real): real
    requires tr.duration != 0.0
  {
    if Covers(tr, layerId, t) then FadeFactor(tr, t) else 1.0
  }

  /** The product of the factors of the transitions that cover t, in list
      order. */
  function TransitionFactor(trs: seq<Transition>, layerId: int, t: real): real
    requires NonZeroDurations(trs)
    decreases |trs|
  {
    if |trs| == 0 then 1.0
    else TransitionFactor(trs[..|trs| - 1], layerId, t) * StepFactor(trs[|trs| - 1], layerId, t)
  }

  /** The opacity before the final clamp: base opacity times the keyframe
      curve times the transition factors. */
  function UnclampedOpacity(layer: Layer, trs: seq<Transition>, t: real): real
    requires NonZeroDurations(trs)
  {
    OrElse(layer.opacity, 1.0) * CurveFactor(SortByTime(layer.keyframes), t)
      * TransitionFactor(trs, layer.id, t)
  }

  /** The opacity `calculateLayerOpacity` returns. */
  function LayerOpacity(layer: Layer, trs: seq<Transition>, t: real): (r: real)
    requires NonZeroDurations(trs)
    ensures 0.0 <= r <= 1.0
  {
    Clamp(UnclampedOpacity(layer, trs, t), 0.0, 1.0)
  }

  /** `calculateLayerOpacity`: a running `opacity`, starting from the base
      opacity, that the keyframe loop and then each covering transition
      multiply, clamped to [0, 1] at the end. */
  method CalculateLayerOpacity(layer: Layer, transitions: seq<Transition>, currentTime: real)
    returns (opacity: real)
    requires NonZeroDurations(transitions)
    ensures opacity == LayerOpacity(layer, transitions, currentTime)
  {
    opacity := OrElse(layer.opacity, 1.0);
    ghost var base := opacity;
    if |layer.keyframes| > 0 {
      var sorted := SortByTime(layer.keyframes);
      opacity := ApplyKeyframes(opacity, sorted, currentTime);
    } else {
      MulOne(opacity);
    }
    ghost var curve := CurveFactor(SortByTime(layer.keyframes), currentTime);
    assert opacity == base * curve;
    opacity := ApplyTransitions(opacity, transitions, layer.id, currentTime);
    assert opacity == UnclampedOpacity(layer, transitions, currentTime);
    opacity := Clamp(opacity, 0.0, 1.0);
  }

  /** Step 1 of `calculateLayerOpacity` on a non-empty sorted list: the
      boundary values, or the `for` loop that stops at the first segment
      containing t. */
  method ApplyKeyframes(opacity0: real, sorted: seq<Keyframe>, currentTime: real)
    returns (opacity: real)
    requires |sorted| > 0
    ensures opacity == opacity0 * CurveFactor(sorted, currentTime)
  {
    opacity := opacity0;
    if currentTime <= sorted[0].time {
      opacity := opacity * sorted[0].value;
    } else if currentTime >= sorted[|sorted| - 1].time {
      opacity := opacity * sorted[|sorted| - 1].value;
    } else {
      var i := 0;
      while i < |sorted| - 1
        invariant 0 <= i <= |sorted| - 1
        invariant SegmentFrom(sorted, currentTime, 0) == SegmentFrom(sorted, currentTime, i)
        invariant opacity == opacity0
      {
        var start := sorted[i];
        var end := sorted[i + 1];
        if currentTime >= start.time && currentTime < end.time {
          var t := (currentTime - start.time) / (end.time - start.time);
          opacity := opacity * (start.value + (end.value - start.value) * t);
          assert SegmentFrom(sorted, currentTime, 0) == Some(i);
          return;
        }
        i := i + 1;
      }
    }
  }

  /** Step 2 of `calculateLayerOpacity`: each transition of the layer whose
      window contains t multiplies the running opacity by its fade factor. */
  method ApplyTransitions(opacity0: real, transitions: seq<Transition>, layerId: int, currentTime: real)
    returns (opacity: real)
    requires NonZeroDurations(transitions)
    ensures opacity == opacity0 * TransitionFactor(transitions, layerId, currentTime)
  {
    opacity := opacity0;
    var j := 0;
    while j < |transitions|
      invariant 0 <= j <= |transitions|
      invariant opacity == opacity0 * TransitionFactor(transitions[..j], layerId, currentTime)
    {
      TransitionFactorPrefix(transitions, j, layerId, currentTime);
      ghost var f := StepFactor(transitions[j], layerId, currentTime);
      opacity := ApplyTransition(opacity, transitions[j], layerId, currentTime);
      MulAssoc(opacity0, TransitionFactor(transitions[..j], layerId, currentTime), f);
      j := j + 1;
    }
    assert transitions[..|transitions|] == transitions;
  }

  /** The loop body: a transition of the layer whose window contains t
      multiplies the opacity by its fade factor; any other leaves it. */
  method ApplyTransition(opacity: real, trans: Transition, layerId: int, currentTime: real)
    returns (next: real)
    requires trans.duration != 0.0
    ensures next == opacity * StepFactor(trans, layerId, currentTime)
  {
    next := opacity;
    if Covers(trans, layerId, currentTime) {
      var t := (currentTime - trans.startTime) / trans.duration;
      if trans.kind == FadeIn {
        next := opacity * t;
      } else if trans.kind == FadeOut {
        next := opacity * (1.0 - t);
      } else {
        MulOne(opacity);
      }
    } else {
      MulOne(opacity);
    }
  }

  lemma MulOne(a: real)
    ensures a * 1.0 == a
  {
  }

  lemma MulAssoc(a: real, b: real, c: real)
    ensures (a * b) * c == a * (b * c)
  {
  }

  lemma TransitionFactorPrefix(trs: seq<Transition>, j: int, layerId: int, t: real)
    requires NonZeroDurations(trs) && 0 <= j < |trs|
    ensures NonZeroDurations(trs[..j]) && NonZeroDurations(trs[..j + 1])
    ensures TransitionFactor(trs[..j + 1], layerId, t)
            == TransitionFactor(trs[..j], layerId, t) * StepFactor(trs[j], layerId, t)
  {
    assert trs[..j + 1][..j] == trs[..j];
  }

  lemma FadeFactorInUnit(tr: Transition, layerId: int, t: real)
    requires tr.duration != 0.0
    ensures 0.0 <= StepFactor(tr, layerId, t) <= 1.0
  {
    if Covers(tr, layerId, t) {
      DivWithinUnit(t - tr.startTime, tr.duration);
    }
  }

  /** Every transition factor lies in [0, 1], so their product does too. */
  lemma {:induction false} TransitionFactorInUnit(trs: seq<Transition>, layerId: int, t: real)
    requires NonZeroDurations(trs)
    ensures 0.0 <= TransitionFactor(trs, layerId, t) <= 1.0
    decreases |trs|
  {
    if |trs| > 0 {
      TransitionFactorInUnit(trs[..|trs| - 1], layerId, t);
      FadeFactorInUnit(trs[|trs| - 1], layerId, t);
      ScaleWithinUnit(TransitionFactor(trs[..|trs| - 1], layerId, t), StepFactor(trs[|trs| - 1], layerId, t));
    }
  }

  /** Fades never make a layer more opaque than its keyframes alone. */
  lemma TransitionsNeverBrighten(layer: Layer, trs: seq<Transition>, t: real)
    requires NonZeroDurations(trs)
    ensures LayerOpacity(layer, trs, t) <= LayerOpacity(layer, [], t)
  {
    var x := OrElse(layer.opacity, 1.0) * CurveFactor(SortByTime(layer.keyframes), t);
    var f := TransitionFactor(trs, layer.id, t);
    TransitionFactorInUnit(trs, layer.id, t);
    MulOne(x);
    assert UnclampedOpacity(layer, [], t) == x;
    assert UnclampedOpacity(layer, trs, t) == x * f;
    ClampScaledDown(x, f);
  }

  lemma ClampScaledDown(x: real, f: real)
    requires 0.0 <= f <= 1.0
    ensures Clamp(x * f, 0.0, 1.0) <= Clamp(x, 0.0, 1.0)
  {
    if x >= 0.0 {
      ScaleWithinUnit(x, f);
      ClampMonotone(x * f, x, 0.0, 1.0);
    } else {
      NegativeScaled(x, f);
    }
  }

  lemma NegativeScaled(x: real, f: real)
    requires 0.0 <= f <= 1.0 && x < 0.0
    ensures x * f <= 0.0
  {
    ScaleWithinUnit(-x, f);
    assert x * f == -((-x) * f);
  }

  /** The window of a fade is closed: at its start a fade-in contributes 0
      and a fade-out 1, at its end a fade-in contributes 1 and a fade-out 0. */
  lemma FadeWindowEnds(tr: Transition)
    requires tr.duration > 0.0
    ensures Covers(tr, tr.layerId, tr.startTime) && Covers(tr, tr.layerId, tr.startTime + tr.duration)
    ensures tr.kind == FadeIn ==>
              StepFactor(tr, tr.layerId, tr.startTime) == 0.0
              && StepFactor(tr, tr.layerId, tr.startTime + tr.duration) == 1.0
    ensures tr.kind == FadeOut ==>
              StepFactor(tr, tr.layerId, tr.startTime) == 1.0
              && StepFactor(tr, tr.layerId, tr.startTime + tr.duration) == 0.0
  {
    assert (tr.startTime + tr.duration - tr.startTime) / tr.duration == tr.duration / tr.duration == 1.0;
  }

  /** A fade-in of one second at time 0 on a layer with opacity 1 and no
      keyframes: a quarter of the way in the opacity is 0.25, after the
      window it is back to 1. */
  lemma {:induction false} FadeInScenario(layer: Layer)
    requires layer.opacity == Some(1.0) && layer.keyframes == []
    ensures var trs := [Transition(1, layer.id, FadeIn, 0.0, 1.0)];
            LayerOpacity(layer, trs, 0.25) == 0.25 && LayerOpacity(layer, trs, 1.5) == 1.0
  {
    var trs := [Transition(1, layer.id, FadeIn, 0.0, 1.0)];
    assert trs[..0] == [];
    assert TransitionFactor(trs, layer.id, 0.25) == 0.25;
    assert TransitionFactor(trs, layer.id, 1.5) == 1.0;
  }

  /** An opacity ramp from 0 to 1 over the first second reads 0.5 half-way. */
  lemma {:induction false} OpacityRampScenario(layer: Layer)
    requires layer.opacity == Some(1.0)
    requires layer.keyframes == [Keyframe(0.0, 0.0, Opacity), Keyframe(1.0, 1.0, Opacity)]
    ensures LayerOpacity(layer, [], 0.5) == 0.5
  {
    var s := layer.keyframes;
    SortOfSortedIsIdentity(s);
    assert InSegment(s, 0.5, 0);
    InteriorIsInterpolation(s, 0.5, 0);
  }

  /** The main layer (id 1) is drawn with its computed opacity while it is
      visible and t lies in [start, start + duration); an absent duration
      stands for `Infinity`. */
  predicate MainLayerActive(layers: seq<Layer>, t: real)
  {
    var m := FindLayer(layers, 1);
    && m.Some? && m.value.visible
    && t >= m.value.startTime
    && (m.value.duration == 0.0 || t < m.value.startTime + m.value.duration)
  }

  /** The `globalAlpha` the main layer is drawn with. */
  function MainLayerAlpha(layers: seq<Layer>, trs: seq<Transition>, t: real): (alpha: real)
    requires NonZeroDurations(trs)
    ensures 0.0 <= alpha <= 1.0
    ensures !MainLayerActive(layers, t) ==> alpha == 0.0
    ensures MainLayerActive(layers, t) ==> alpha == LayerOpacity(FindLayer(layers, 1).value, trs, t)
  {
    if MainLayerActive(layers, t) then LayerOpacity(FindLayer(layers, 1).value, trs, t) else 0.0
  }

  /** The overlay pass skips video, audio and hidden layers, and layers with
      t before the start or after the end. */
  predicate OverlayDrawn(l: Layer, t: real)
  {
    && l.kind != VideoLayer && l.kind != AudioLayer && l.visible
    && !(t < l.startTime)
    && !(l.duration != 0.0 && t > l.startTime + l.duration)
  }

  /** The main layer's window is open at its end, an overlay's is closed:
      at t = start + duration an overlay is still drawn, the main layer is
      not, and just after it the overlay is gone too. */
  lemma WindowEnds(layers: seq<Layer>, l: Layer, eps: real)
    requires l.visible && l.kind in {ImageLayer, TextLayer} && l.duration > 0.0 && eps > 0.0
    requires var m := FindLayer(layers, 1); m.Some? && m.value.startTime == l.startTime && m.value.duration == l.duration
    ensures OverlayDrawn(l, l.startTime) && OverlayDrawn(l, l.startTime + l.duration)
    ensures !OverlayDrawn(l, l.startTime + l.duration + eps)
    ensures !MainLayerActive(layers, l.startTime + l.duration)
  {
  }

  /** Main layer activity on the layer's own terms: exactly the half-open
      window [start, start + duration) of the first layer with id 1. */
  lemma MainLayerWindow(layers: seq<Layer>, t: real)
    requires FindLayer(layers, 1).Some?
    requires var m := FindLayer(layers, 1).value; m.visible && m.duration > 0.0
    ensures var m := FindLayer(layers, 1).value;
            MainLayerActive(layers, t) <==> m.startTime <= t < m.startTime + m.duration
  {
  }

  /** An overlay without a duration stays on screen from its start onwards. */
  lemma OverlayWithoutDuration(l: Layer, t: real)
    requires l.visible && l.kind in {ImageLayer, TextLayer} && l.duration == 0.0
    ensures OverlayDrawn(l, t) <==> t >= l.startTime
  {
  }

  // ---------------------------------------------------------------------
  // The opacity curve reads keyframes of every property.

  /** The keyframes that animate opacity, in list order. */
  function OpacityKeyframes(ks: seq<Keyframe>): (r: seq<Keyframe>)
    ensures forall k | k in r :: k.property == Opacity
    ensures forall k | k in ks :: k.property == Opacity ==> k in r
    ensures forall k | k in r :: k in ks
    decreases |ks|
  {
    if |ks| == 0 then []
    else
      var rest := OpacityKeyframes(ks[..|ks| - 1]);
      assert ks == ks[..|ks| - 1] + [ks[|ks| - 1]];
      if ks[|ks| - 1].property == Opacity then rest + [ks[|ks| - 1]] else rest
  }

  /** The opacity the editor evidently intends: the same rule evaluated on
      the opacity keyframes only. */
  function IntendedLayerOpacity(layer: Layer, trs: seq<Transition>, t: real): (r: real)
    requires NonZeroDurations(trs)
    ensures 0.0 <= r <= 1.0
  {
    LayerOpacity(layer.(keyframes := OpacityKeyframes(layer.keyframes)), trs, t)
  }

  /** As written, the slide-left preset (x keyframes 1.2 then 0.5 over the
      first second) halves the opacity of a fully opaque layer once the
      slide is over. */
  lemma {:induction false} SlideLeftDimsLayer(layer: Layer)
    requires layer.opacity == Some(1.0)
    requires layer.keyframes == [Keyframe(0.0, 1.2, X), Keyframe(1.0, 0.5, X)]
    ensures LayerOpacity(layer, [], 2.0) == 0.5
  {
    SortOfSortedIsIdentity(layer.keyframes);
  }

  /** With the opacity keyframes alone the same layer stays fully opaque. */
  lemma {:induction false} SlideLeftKeepsOpacity(layer: Layer)
    requires layer.opacity == Some(1.0)
    requires layer.keyframes == [Keyframe(0.0, 1.2, X), Keyframe(1.0, 0.5, X)]
    ensures IntendedLayerOpacity(layer, [], 2.0) == 1.0
  {
    var s := layer.keyframes;
    assert s[..1] == [s[0]] && [s[0]][..0] == [];
    assert OpacityKeyframes(s[..1]) == [];
    assert OpacityKeyframes(s) == [];
  }

  /** Keyframes for scale, x or y leave the intended opacity unchanged. */
  lemma OtherPropertiesIgnored(layer: Layer, trs: seq<Transition>, t: real, k: Keyframe)
    requires NonZeroDurations(trs) && k.property != Opacity
    ensures IntendedLayerOpacity(layer.(keyframes := layer.keyframes + [k]), trs, t)
            == IntendedLayerOpacity(layer, trs, t)
  {
    var ks := layer.keyframes + [k];
    assert ks[..|ks| - 1] == layer.keyframes;
  }

  /** On a layer whose keyframes all animate opacity the two rules agree. */
  lemma {:induction false} OpacityOnlyLayersAgree(layer: Layer, trs: seq<Transition>, t: real)
    requires NonZeroDurations(trs)
    requires forall i :: 0 <= i < |layer.keyframes| ==> layer.keyframes[i].property == Opacity
    ensures IntendedLayerOpacity(layer, trs, t) == LayerOpacity(layer, trs, t)
  {
    OpacityFilterIdentity(layer.keyframes);
  }

  lemma {:induction false} OpacityFilterIdentity(ks: seq<Keyframe>)
    requires forall i :: 0 <= i < |ks| ==> ks[i].property == Opacity
    ensures OpacityKeyframes(ks) == ks
    decreases |ks|
  {
    if |ks| > 0 {
      OpacityFilterIdentity(ks[..|ks| - 1]);
      assert ks[..|ks| - 1] + [ks[|ks| - 1]] == ks;
    }
  }
}
