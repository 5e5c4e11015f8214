/** The rotary `Knob` of Shared.tsx: the value a vertical drag produces,
    and the geometry of its 270-degree gauge. */
module Knob {
  import opened Numeric

  /** 150 pixels of drag sweep the whole range. */
  const Sensitivity: real := 150.0

  /** The value before snapping: the value at mouse-down plus the drag
      height as a share of the full range (dragging up increases it). */
  function DragTarget(startVal: real, startY: real, clientY: real, min: real, max: real): real
  {
    startVal + ((startY - clientY) / Sensitivity) * (max - min)
  }

  /** `if (step) newVal = Math.round(newVal / step) * step`: a step of 0
      is falsy and leaves the value as it is. */
  function Snap(v: real, step: real): real
  {
    if step != 0.0 then Round(v / step) as real * step else v
  }

  /** The value `handleMove` passes to `onChange` and `handleUp` to
      `onChangeEnd`: both recompute it from the same refs and the pointer's
      `clientY`, so for one pointer position the two agree. */
  function KnobValue(startVal: real, startY: real, clientY: real, min: real, max: real, step: real): (r: real)
    ensures min <= max ==> min <= r <= max
    ensures min > max ==> r == max
  {
    MinR(max, MaxR(min, Snap(DragTarget(startVal, startY, clientY, min, max), step)))
  }

  /** `k` steps. */
  function Multiple(k: int, step: real): real
  {
    k as real * step
  }

  /** Snapping lands on a whole multiple of the step, at most half a step
      from the value. */
  lemma SnapIsNearestMultiple(v: real, step: real)
    requires step > 0.0
    ensures exists k: int :: Snap(v, step) == Multiple(k, step)
    ensures v - step / 2.0 <= Snap(v, step) <= v + step / 2.0
  {
    var q := v / step;
    var k := Round(q);
    assert Snap(v, step) == Multiple(k, step);
    assert q * step == v;
    var d := k as real - q;
    assert -0.5 < d <= 0.5;
    assert d * step == k as real * step - q * step;
    ScaleBetween(d, step);
    assert Snap(v, step) == v + d * step;
  }

  lemma ScaleBetween(d: real, step: real)
    requires step > 0.0 && -0.5 < d <= 0.5
    ensures -step / 2.0 <= d * step <= step / 2.0
  {
    assert step / 2.0 - d * step == (0.5 - d) * step;
    assert d * step + step / 2.0 == (d + 0.5) * step;
  }

  lemma SnapMonotone(a: real, b: real, step: real)
    requires a <= b && step >= 0.0
    ensures Snap(a, step) <= Snap(b, step)
  {
    if step > 0.0 {
      assert a / step <= b / step by {
        assert b / step - a / step == (b - a) / step;
      }
      FloorMonotone(a / step + 0.5, b / step + 0.5);
      var ka, kb := Round(a / step), Round(b / step);
      assert (kb as real - ka as real) * step >= 0.0;
      assert kb as real * step - ka as real * step == (kb as real - ka as real) * step;
    }
  }

  /** Dragging further up never lowers the value, with a non-negative step
      and a range whose maximum is not below its minimum. */
  lemma KnobMonotone(startVal: real, startY: real, y1: real, y2: real, min: real, max: real, step: real)
    requires y2 <= y1 && min <= max && step >= 0.0
    ensures KnobValue(startVal, startY, y1, min, max, step) <= KnobValue(startVal, startY, y2, min, max, step)
  {
    var d1 := (startY - y1) / Sensitivity;
    var d2 := (startY - y2) / Sensitivity;
    assert d1 <= d2;
    assert d2 * (max - min) - d1 * (max - min) == (d2 - d1) * (max - min);
    var t1 := DragTarget(startVal, startY, y1, min, max);
    var t2 := DragTarget(startVal, startY, y2, min, max);
    assert t1 <= t2;
    SnapMonotone(t1, t2, step);
  }

  /** Without movement the value is the starting value snapped and clamped:
      a click does not move a value that is already on the grid. */
  lemma ClickKeepsValue(startVal: real, y: real, min: real, max: real, k: int, step: real)
    requires step > 0.0 && startVal == k as real * step && min <= startVal <= max
    ensures KnobValue(startVal, y, y, min, max, step) == startVal
  {
    assert DragTarget(startVal, y, y, min, max) == startVal;
    assert startVal / step == k as real;
    FloorOfInt(k);
    assert Round(k as real) == k by {
      assert Floor(k as real + 0.5) == k;
    }
  }

  // ---------------------------------------------------------------------
  // Gauge.

  const StartAngle: real := 135.0
  const EndAngle: real := 405.0

  /** `Math.min(1, Math.max(0, (value - min) / (max - min)))`. An empty
      range divides by zero: a value above it gives Infinity and so 1, one
      below gives -Infinity and so 0, and the value itself gives NaN (None). */
  function Percentage(value: real, min: real, max: real): (p: Option<real>)
    ensures p.Some? ==> 0.0 <= p.value <= 1.0
    ensures p.None? <==> max == min && value == min
  {
    if max != min then Some(MinR(1.0, MaxR(0.0, (value - min) / (max - min))))
    else if value > min then Some(1.0)
    else if value < min then Some(0.0)
    else None
  }

  /** Inside a proper range the gauge shows the value's position in it. */
  lemma PercentageOfRange(value: real, min: real, max: real)
    requires min <= value <= max && min < max
    ensures Percentage(value, min, max) == Some((value - min) / (max - min))
  {
    var r := max - min;
    var p := (value - min) / r;
    assert p * r == value - min;
    assert p >= 0.0;
    assert p <= 1.0 by {
      assert (1.0 - p) * r == r - (value - min);
    }
  }

  function CurrentAngle(p: real): (a: real)
    requires 0.0 <= p <= 1.0
    ensures StartAngle <= a <= EndAngle
  {
    StartAngle + p * (EndAngle - StartAngle)
  }

  /** `createArc`'s SVG large-arc flag. */
  function LargeArcFlag(start: real, end: real): string
  {
    if end - start <= 180.0 then "0" else "1"
  }

  /** The track sweeps 270 degrees and so takes the large arc; the value's
      arc takes it exactly when the value is past two thirds of the range. */
  lemma ArcFlags(p: real)
    requires 0.0 <= p <= 1.0
    ensures LargeArcFlag(StartAngle, EndAngle) == "1"
    ensures LargeArcFlag(StartAngle, CurrentAngle(p)) == "1" <==> p > 2.0 / 3.0
  {
  }
}
