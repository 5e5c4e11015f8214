/** Numeric helpers shared by every studio: JavaScript's rounding operators on
    exact reals, clamping, and the optional-value wrapper used for `??` and for
    operations that can fail. */
module Numeric {

  datatype Option<T> = None | Some(value: T)

  /** An unsigned 8-bit value, as stored in a `Uint8Array` or a `DataView`. */
  newtype byte = x: int | 0 <= x < 256

  function MinR(a: real, b: real): (r: real)
    ensures r <= a && r <= b && (r == a || r == b)
  {
    if a <= b then a else b
  }

  function MaxR(a: real, b: real): (r: real)
    ensures r >= a && r >= b && (r == a || r == b)
  {
    if a >= b then a else b
  }

  /** `Math.max(lo, Math.min(hi, x))` */
  function Clamp(x: real, lo: real, hi: real): (r: real)
    requires lo <= hi
    ensures lo <= r <= hi
    ensures lo <= x <= hi ==> r == x
    ensures x < lo ==> r == lo
    ensures x > hi ==> r == hi
  {
    MaxR(lo, MinR(hi, x))
  }

  lemma ClampMonotone(x: real, y: real, lo: real, hi: real)
    requires lo <= hi && x <= y
    ensures Clamp(x, lo, hi) <= Clamp(y, lo, hi)
  {
  }

  /** `Math.floor`: the greatest integer not above x. */
  function Floor(x: real): (r: int)
    ensures r as real <= x < r as real + 1.0
  {
    x.Floor
  }

  /** `Math.round`: rounds half-way cases towards positive infinity. */
  function Round(x: real): (r: int)
    ensures x - 0.5 < r as real <= x + 0.5
  {
    Floor(x + 0.5)
  }

  /** The truncation toward zero that `DataView.setInt16` applies to a number. */
  function Trunc(x: real): (r: int)
    ensures x >= 0.0 ==> r as real <= x < r as real + 1.0
    ensures x < 0.0 ==> r as real - 1.0 < x <= r as real
  {
    if x >= 0.0 then Floor(x) else -Floor(-x)
  }

  lemma FloorMonotone(x: real, y: real)
    requires x <= y
    ensures Floor(x) <= Floor(y)
  {
  }

  lemma FloorOfInt(n: int)
    ensures Floor(n as real) == n
  {
  }

  /** Floor(x) + Floor(y) never exceeds Floor(x + y). */
  lemma FloorAddLe(x: real, y: real)
    ensures Floor(x) + Floor(y) <= Floor(x + y)
  {
  }

  function Pow(b: nat, e: nat): (r: nat)
    ensures b >= 1 ==> r >= 1
    decreases e
  {
    if e == 0 then 1 else b * Pow(b, e - 1)
  }

  /** The bytes a target size stands for, as ImageStudio and PdfStudio both
      compute it: kilobytes unless the unit is `MB` or `GB`. */
  function TargetBytes(targetSize: real, unit: string): (bytes: real)
    ensures unit == "MB" ==> bytes == targetSize * 1048576.0
    ensures unit == "GB" ==> bytes == targetSize * 1073741824.0
    ensures unit != "MB" && unit != "GB" ==> bytes == targetSize * 1024.0
  {
    var multiplier := if unit == "MB" then 1024.0 * 1024.0
                      else if unit == "GB" then 1024.0 * 1024.0 * 1024.0
                      else 1024.0;
    targetSize * multiplier
  }

  /** A sequence that agrees with `piece` from `offset` on and with `before`
      elsewhere is `piece` written over `before` at `offset`: how the
      array writes of both editors are turned into whole-buffer facts. */
  lemma Overwritten<T>(after: seq<T>, before: seq<T>, offset: nat, piece: seq<T>)
    requires |after| == |before| && offset + |piece| <= |before|
    requires forall j :: 0 <= j < |after| && !(offset <= j < offset + |piece|) ==> after[j] == before[j]
    requires forall j :: offset <= j < offset + |piece| ==> after[j] == piece[j - offset]
    ensures after == before[..offset] + piece + before[offset + |piece|..]
  {
    var r := before[..offset] + piece + before[offset + |piece|..];
    assert |r| == |after|;
    forall j | 0 <= j < |after|
      ensures after[j] == r[j]
    {
      if j < offset {
        assert r[j] == before[j];
      } else if j < offset + |piece| {
        assert r[j] == piece[j - offset];
      } else {
        assert r[j] == before[j];
      }
    }
  }
}
