/** Colour at the pixel level in ImageStudio.tsx: the eyedropper's
    `rgbToHex` and the per-channel multiply that `drawCanvas` runs over an
    RGBA pixel buffer in place. */
module ImageColor {
  import opened Numeric

  // ---------------------------------------------------------------------
  // rgbToHex.

  /** A lower-case hexadecimal digit, as `toString(16)` writes them. */
  predicate IsHexDigit(c: char)
  {
    '0' <= c <= '9' || 'a' <= c <= 'f'
  }

  function HexDigit(d: nat): (c: char)
    requires d < 16
    ensures IsHexDigit(c)
  {
    if d < 10 then ('0' as int + d) as char else ('a' as int + d - 10) as char
  }

  /** The value of a lower-case hexadecimal digit, or None. */
  function DigitValue(c: char): (v: Option<nat>)
    ensures v.Some? <==> IsHexDigit(c)
    ensures v.Some? ==> v.value < 16 && HexDigit(v.value) == c
  {
    if '0' <= c <= '9' then Some(c as int - '0' as int)
    else if 'a' <= c <= 'f' then Some(c as int - 'a' as int + 10)
    else None
  }

  lemma DigitValueOfHexDigit(d: nat)
    requires d < 16
    ensures DigitValue(HexDigit(d)) == Some(d)
  {
  }

  /** `n.toString(16)`: most significant digit first, no leading zeros. */
  function ToHex(n: nat): (s: string)
    ensures |s| >= 1
    ensures forall i :: 0 <= i < |s| ==> IsHexDigit(s[i])
    decreases n
  {
    if n < 16 then [HexDigit(n)] else ToHex(n / 16) + [HexDigit(n % 16)]
  }

  /** The number a string of lower-case hexadecimal digits denotes. */
  function HexValue(s: string): nat
    requires forall i :: 0 <= i < |s| ==> IsHexDigit(s[i])
  {
    if s == [] then 0 else HexValue(s[..|s| - 1]) * 16 + DigitValue(s[|s| - 1]).value
  }

  /** Reading the digits back gives the number. */
  lemma {:induction false} ToHexRoundTrip(n: nat)
    ensures HexValue(ToHex(n)) == n
    decreases n
  {
    var s := ToHex(n);
    if n < 16 {
      DigitValueOfHexDigit(n);
      assert s[..0] == [];
    } else {
      ToHexRoundTrip(n / 16);
      DigitValueOfHexDigit(n % 16);
      assert s[..|s| - 1] == ToHex(n / 16);
    }
  }

  /** Only numbers below 256 fit in two digits. */
  lemma ToHexLength(n: nat)
    ensures |ToHex(n)| <= 2 <==> n < 256
  {
    if n >= 16 {
      assert |ToHex(n)| == |ToHex(n / 16)| + 1;
      assert |ToHex(n / 16)| == 1 <==> n / 16 < 16;
    }
  }

  /** `padStart(2, '0')`. */
  function PadTwo(s: string): (p: string)
    ensures |p| == if |s| >= 2 then |s| else 2
  {
    if |s| >= 2 then s else seq(2 - |s|, _ => '0') + s
  }

  /** One channel of `rgbToHex`: its digits, padded to two. */
  function ChannelHex(n: byte): string
  {
    PadTwo(ToHex(n as nat))
  }

  /** `rgbToHex(r, g, b)` on the bytes `getImageData` returns. */
  function RgbToHex(r: byte, g: byte, b: byte): string
  {
    "#" + ChannelHex(r) + ChannelHex(g) + ChannelHex(b)
  }

  /** One channel of a `#rrggbb` colour: two digits. */
  function Pair(s: string, at: nat): Option<byte>
    requires at + 2 <= |s|
  {
    var hi, lo := DigitValue(s[at]), DigitValue(s[at + 1]);
    if hi.Some? && lo.Some? then Some((hi.value * 16 + lo.value) as byte) else None
  }

  /** Read a `#rrggbb` colour, as the brush colour input holds it. */
  function ParseHexColor(s: string): Option<(byte, byte, byte)>
  {
    if |s| != 7 || s[0] != '#' then None
    else
      var r, g, b := Pair(s, 1), Pair(s, 3), Pair(s, 5);
      if r.Some? && g.Some? && b.Some? then Some((r.value, g.value, b.value)) else None
  }

  /** A byte becomes two digits whose value is the byte. */
  lemma {:induction false} ChannelDigits(n: byte)
    ensures var p := ChannelHex(n);
            |p| == 2 && DigitValue(p[0]).Some? && DigitValue(p[1]).Some?
            && DigitValue(p[0]).value * 16 + DigitValue(p[1]).value == n as nat
  {
    var h := ToHex(n as nat);
    ToHexLength(n as nat);
    ToHexRoundTrip(n as nat);
    var p := PadTwo(h);
    if |h| == 1 {
      assert p == ['0', h[0]];
      assert h[..0] == [];
      assert HexValue(h) == DigitValue(h[0]).value;
    } else {
      assert p == h;
      assert h[..1] == [h[0]];
      assert HexValue(h[..1]) == DigitValue(h[0]).value by {
        assert h[..1][..0] == [];
      }
    }
  }

  /** Two digits that a channel became read back as that channel. */
  lemma PairOfChannel(s: string, at: nat, n: byte)
    requires at + 2 <= |s| && s[at] == ChannelHex(n)[0] && s[at + 1] == ChannelHex(n)[1]
    ensures Pair(s, at) == Some(n)
  {
    ChannelDigits(n);
  }

  /** The eyedropper's colour string is `#` and six lower-case hexadecimal
      digits, and reading it back as a colour gives the picked pixel. */
  lemma RgbToHexRoundTrip(r: byte, g: byte, b: byte)
    ensures |RgbToHex(r, g, b)| == 7 && RgbToHex(r, g, b)[0] == '#'
    ensures forall i :: 1 <= i < 7 ==> IsHexDigit(RgbToHex(r, g, b)[i])
    ensures ParseHexColor(RgbToHex(r, g, b)) == Some((r, g, b))
  {
    ChannelDigits(r);
    ChannelDigits(g);
    ChannelDigits(b);
    var pr, pg, pb := ChannelHex(r), ChannelHex(g), ChannelHex(b);
    var s := RgbToHex(r, g, b);
    assert s == "#" + pr + pg + pb;
    assert s[1] == pr[0] && s[2] == pr[1];
    assert s[3] == pg[0] && s[4] == pg[1];
    assert s[5] == pb[0] && s[6] == pb[1];
    PairOfChannel(s, 1, r);
    PairOfChannel(s, 3, g);
    PairOfChannel(s, 5, b);
  }

  /** Different pixels never show the same colour string. */
  lemma RgbToHexInjective(r: byte, g: byte, b: byte, r': byte, g': byte, b': byte)
    requires RgbToHex(r, g, b) == RgbToHex(r', g', b')
    ensures r == r' && g == g' && b == b'
  {
    RgbToHexRoundTrip(r, g, b);
    RgbToHexRoundTrip(r', g', b');
  }

  // ---------------------------------------------------------------------
  // The RGB channel multiply.

  /** A store into a `Uint8ClampedArray`: clamp to 0..255, then round to
      the nearest integer, halves to the even one. */
  function ClampToByte(x: real): (v: byte)
    ensures x <= 0.0 ==> v == 0
    ensures x >= 255.0 ==> v == 255
    ensures 0.0 <= x <= 255.0 ==> x - 0.5 <= v as real <= x + 0.5
  {
    if x <= 0.0 then 0
    else if x >= 255.0 then 255
    else
      var f := Floor(x);
      var d := x - f as real;
      (if d < 0.5 then f else if d > 0.5 then f + 1 else if f % 2 == 0 then f else f + 1) as byte
  }

  lemma ClampToByteOfByte(v: byte)
    ensures ClampToByte(v as real) == v
  {
    FloorOfInt(v as int);
  }

  /** A channel value multiplied and stored back. */
  function Scaled(v: byte, gain: real): byte
  {
    ClampToByte(v as real * gain)
  }

  /** The multiplier for the channel at offset `k` of a pixel. */
  function Gain(k: nat, red: real, green: real, blue: real): real
    requires k < 3
  {
    if k == 0 then red / 100.0 else if k == 1 then green / 100.0 else blue / 100.0
  }

  /** The value stored back at index `j` of the RGBA buffer: the colour
      channels scaled by their slider, the alpha channel as it was. */
  function PixelAt(s: seq<byte>, j: nat, red: real, green: real, blue: real): byte
    requires j < |s|
  {
    if j % 4 == 3 then s[j] else Scaled(s[j], Gain(j % 4, red, green, blue))
  }

  /** The whole buffer after the channel multiply. */
  function Adjusted(s: seq<byte>, red: real, green: real, blue: real): (t: seq<byte>)
    ensures |t| == |s|
  {
    seq(|s|, j requires 0 <= j < |s| => PixelAt(s, j, red, green, blue))
  }

  lemma AdjustedAt(s: seq<byte>, j: nat, red: real, green: real, blue: real)
    requires j < |s|
    ensures Adjusted(s, red, green, blue)[j] == PixelAt(s, j, red, green, blue)
  {
  }

  /** `drawCanvas` skips the pass when every slider is at 100%. */
  predicate NeedsMultiply(red: real, green: real, blue: real)
  {
    red != 100.0 || green != 100.0 || blue != 100.0
  }

  /** The channel multiply over `data.length` in steps of 4, in place. */
  method MultiplyChannels(data: array<byte>, red: real, green: real, blue: real)
    requires data.Length % 4 == 0
    modifies data
    ensures data[..] == if NeedsMultiply(red, green, blue) then Adjusted(old(data[..]), red, green, blue) else old(data[..])
  {
    if NeedsMultiply(red, green, blue) {
      MultiplyPixels(data, red, green, blue);
    }
  }

  /** The pass itself: `for (let i = 0; i < data.length; i += 4)`. */
  method MultiplyPixels(data: array<byte>, red: real, green: real, blue: real)
    requires data.Length % 4 == 0
    modifies data
    ensures data[..] == Adjusted(old(data[..]), red, green, blue)
  {
    ghost var before := data[..];
    var rMult := red / 100.0;
    var gMult := green / 100.0;
    var bMult := blue / 100.0;
    var i := 0;
    while i < data.Length
      invariant 0 <= i <= data.Length && i % 4 == 0
      invariant forall j :: 0 <= j < i ==> data[j] == PixelAt(before, j, red, green, blue)
      invariant forall j :: i <= j < data.Length ==> data[j] == before[j]
    {
      ScalePixel(data, i, rMult, gMult, bMult, before, red, green, blue);
      i := i + 4;
    }
    AdjustedIs(data[..], before, red, green, blue);
  }

  /** The loop body: the three colour bytes of the pixel at `i` scaled, so
      that the pixel's four bytes hold their adjusted values. */
  method ScalePixel(data: array<byte>, i: nat, rMult: real, gMult: real, bMult: real,
                    ghost before: seq<byte>, ghost red: real, ghost green: real, ghost blue: real)
    requires |before| == data.Length && i < data.Length && i % 4 == 0 && data.Length % 4 == 0
    requires rMult == red / 100.0 && gMult == green / 100.0 && bMult == blue / 100.0
    requires forall j :: i <= j < i + 4 ==> data[j] == before[j]
    modifies data
    ensures forall j :: i <= j < i + 4 ==> data[j] == PixelAt(before, j, red, green, blue)
    ensures forall j :: 0 <= j < data.Length && !(i <= j < i + 4) ==> data[j] == old(data[j])
  {
    PixelTargets(before, i, red, green, blue);
    data[i] := Scaled(data[i], rMult);
    data[i + 1] := Scaled(data[i + 1], gMult);
    data[i + 2] := Scaled(data[i + 2], bMult);
  }

  /** A buffer that holds the adjusted value at every index is the adjusted
      buffer. */
  lemma AdjustedIs(t: seq<byte>, s: seq<byte>, red: real, green: real, blue: real)
    requires |t| == |s| && forall j :: 0 <= j < |s| ==> t[j] == PixelAt(s, j, red, green, blue)
    ensures t == Adjusted(s, red, green, blue)
  {
  }

  lemma PixelOffsets(i: nat)
    requires i % 4 == 0
    ensures (i + 1) % 4 == 1 && (i + 2) % 4 == 2 && (i + 3) % 4 == 3
  {
  }

  /** The four bytes of the pixel at `i` after the multiply. */
  lemma PixelTargets(s: seq<byte>, i: nat, red: real, green: real, blue: real)
    requires i < |s| && i % 4 == 0 && |s| % 4 == 0
    ensures i + 3 < |s|
    ensures PixelAt(s, i, red, green, blue) == Scaled(s[i], red / 100.0)
    ensures PixelAt(s, i + 1, red, green, blue) == Scaled(s[i + 1], green / 100.0)
    ensures PixelAt(s, i + 2, red, green, blue) == Scaled(s[i + 2], blue / 100.0)
    ensures PixelAt(s, i + 3, red, green, blue) == s[i + 3]
  {
    PixelOffsets(i);
  }

  /** Every slider at 100% leaves the buffer as it is, so skipping the pass
      then is only a shortcut. */
  lemma AllAtHundredIsIdentity(s: seq<byte>)
    ensures Adjusted(s, 100.0, 100.0, 100.0) == s
  {
    forall j | 0 <= j < |s|
      ensures Adjusted(s, 100.0, 100.0, 100.0)[j] == s[j]
    {
      ClampToByteOfByte(s[j]);
    }
  }

  /** Alpha is never touched; a slider at 0% blacks its channel out; a
      slider at 100% keeps its channel; and a slider below 100% never
      brightens its channel. */
  lemma ChannelEffects(s: seq<byte>, j: nat, red: real, green: real, blue: real)
    requires j < |s|
    ensures j % 4 == 3 ==> Adjusted(s, red, green, blue)[j] == s[j]
    ensures j % 4 < 3 && Gain(j % 4, red, green, blue) == 0.0 ==> Adjusted(s, red, green, blue)[j] == 0
    ensures j % 4 < 3 && Gain(j % 4, red, green, blue) == 1.0 ==> Adjusted(s, red, green, blue)[j] == s[j]
    ensures j % 4 < 3 && 0.0 <= Gain(j % 4, red, green, blue) <= 1.0 ==> Adjusted(s, red, green, blue)[j] <= s[j]
  {
    if j % 4 < 3 {
      ScaledEffects(s[j], Gain(j % 4, red, green, blue));
    }
  }

  lemma ScaledEffects(v: byte, g: real)
    ensures g == 0.0 ==> Scaled(v, g) == 0
    ensures g == 1.0 ==> Scaled(v, g) == v
    ensures 0.0 <= g <= 1.0 ==> Scaled(v, g) <= v
  {
    if g == 1.0 {
      ClampToByteOfByte(v);
    }
    if 0.0 <= g <= 1.0 {
      ScaleDown(v as real, g);
      ClampNoBrighter(v as real * g, v);
    }
  }

  lemma ScaleDown(v: real, g: real)
    requires v >= 0.0 && 0.0 <= g <= 1.0
    ensures v * g <= v
  {
    assert v - v * g == v * (1.0 - g);
  }

  lemma ClampNoBrighter(x: real, v: byte)
    requires x <= v as real
    ensures ClampToByte(x) <= v
  {
    if 0.0 < x < 255.0 {
      var f := Floor(x);
      assert f <= v as int by {
        FloorMonotone(x, v as real);
        FloorOfInt(v as int);
      }
      if f == v as int {
        assert x == f as real;
      }
    }
  }
}
