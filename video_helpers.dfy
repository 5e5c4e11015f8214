/** The small helpers around VideoStudio's timeline: the WAV wrapper for
    speech audio (`base64ToWavBlob`), the scrub position and wheel zoom clamps,
    and the `MM:SS` storyboard timestamp that `jumpToTime` receives. */
module VideoHelpers {
  import opened Numeric
  import opened Wav

  /** `base64ToWavBlob` after `atob`: `binary` is the decoded string. Its
      character codes become a byte array, a 24 kHz mono 16-bit header is
      written in front of them, and the bytes are copied in at offset 44. */
  method Base64ToWav(binary: string) returns (buf: array<byte>)
    ensures fresh(buf)
    ensures buf[..] == Header(1, 24000, |binary|) + Tag(binary)
  {
    var len := |binary|;
    var bytes := new byte[len];
    ghost var tag := Tag(binary);
    for i := 0 to len
      invariant forall j :: 0 <= j < i ==> bytes[j] == tag[j]
    {
      bytes[i] := ((binary[i] as int) % 0x100) as byte;
    }
    assert bytes[..] == tag;
    var sampleRate := 24000;
    var numChannels := 1;
    var bitsPerSample := 16;
    var blockAlign := numChannels * bitsPerSample / 8;
    var byteRate := sampleRate * blockAlign;
    var dataSize := len;
    assert blockAlign == numChannels * 2 && byteRate == sampleRate * numChannels * 2;
    buf := NewBuffer(44 + dataSize);
    WriteHeader(buf, numChannels, sampleRate, dataSize);
    ghost var headed := buf[..];
    assert headed[..44] == Header(1, 24000, len) && headed[44 + len..] == [];
    SetBytes(buf, 44, bytes[..]);
  }

  /** The header of a speech clip of n bytes describes 24 kHz mono 16-bit PCM
      at 48000 bytes per second with 2-byte frames. */
  lemma SpeechHeaderFields(n: nat)
    requires 36 + n < 0x1_0000_0000
    ensures ParseHeader(Header(1, 24000, n)) == Some(Format(n + 36, 1, 24000, 48000, 2, 16, n))
  {
    HeaderConsistent(1, 24000, n);
  }

  /** `absoluteX / width` clamped to [0, 1]; None stands for the NaN that
      `0 / 0` gives (the pointer at 0 on a timeline of zero width). Dividing a
      non-zero x by a zero width gives an infinity, which the clamp turns into
      0 or 1. */
  function ScrubPercent(absoluteX: real, width: real): (r: Option<real>)
    requires width >= 0.0
    ensures r.Some? ==> 0.0 <= r.value <= 1.0
    ensures r.None? <==> width == 0.0 && absoluteX == 0.0
  {
    if width > 0.0 then Some(Clamp(absoluteX / width, 0.0, 1.0))
    else if absoluteX > 0.0 then Some(1.0)
    else if absoluteX < 0.0 then Some(0.0)
    else None
  }

  /** The time the scrub handler seeks to, or None when `percent * duration`
      is not finite and the handler does nothing. `duration` is None while the
      video's duration is NaN or infinite. */
  function ScrubTime(absoluteX: real, width: real, duration: Option<real>): Option<real>
    requires width >= 0.0
    requires duration.Some? ==> duration.value >= 0.0
  {
    match (ScrubPercent(absoluteX, width), duration)
    case (Some(p), Some(d)) => Some(p * d)
    case _ => None
  }

  /** The seek target always lies inside the video, the pointer left of the
      timeline seeks to 0 and right of it to the end. */
  lemma ScrubWithinVideo(absoluteX: real, width: real, d: real)
    requires width > 0.0 && d >= 0.0
    ensures var t := ScrubTime(absoluteX, width, Some(d));
            && t.Some? && 0.0 <= t.value <= d
            && (absoluteX <= 0.0 ==> t.value == 0.0)
            && (absoluteX >= width ==> t.value == d)
  {
    var p := ScrubPercent(absoluteX, width).value;
    ScaleWithin(d, p);
    if absoluteX <= 0.0 {
      NonPositiveRatio(absoluteX, width);
    }
    if absoluteX >= width {
      RatioAtLeastOne(absoluteX, width);
    }
  }

  /** Moving the pointer right never seeks earlier. */
  lemma ScrubMonotone(x1: real, x2: real, width: real, d: real)
    requires width > 0.0 && d >= 0.0 && x1 <= x2
    ensures ScrubTime(x1, width, Some(d)).value <= ScrubTime(x2, width, Some(d)).value
  {
    RatioMonotone(x1, x2, width);
    ClampMonotone(x1 / width, x2 / width, 0.0, 1.0);
    var p1 := ScrubPercent(x1, width).value;
    var p2 := ScrubPercent(x2, width).value;
    MulMonotone(p1, p2, d);
  }

  lemma ScaleWithin(d: real, p: real)
    requires d >= 0.0 && 0.0 <= p <= 1.0
    ensures 0.0 <= p * d <= d
  {
    assert d - p * d == (1.0 - p) * d;
  }

  lemma NonPositiveRatio(x: real, w: real)
    requires x <= 0.0 && w > 0.0
    ensures x / w <= 0.0
  {
    assert (x / w) * w == x;
  }

  lemma RatioAtLeastOne(x: real, w: real)
    requires x >= w > 0.0
    ensures x / w >= 1.0
  {
    assert (x / w) * w == x;
  }

  lemma RatioMonotone(x1: real, x2: real, w: real)
    requires x1 <= x2 && w > 0.0
    ensures x1 / w <= x2 / w
  {
    assert x2 / w - x1 / w == (x2 - x1) / w;
  }

  lemma MulMonotone(p1: real, p2: real, d: real)
    requires p1 <= p2 && d >= 0.0
    ensures p1 * d <= p2 * d
  {
    assert p2 * d - p1 * d == (p2 - p1) * d;
  }

  /** The wheel handler with Ctrl or Meta held: scrolling down zooms out by
      0.9, anything else zooms in by 1.1, and the zoom stays within [1, 5]. */
  function WheelZoom(z: real, deltaY: real): (r: real)
    ensures 1.0 <= r <= 5.0
  {
    Clamp(z * (if deltaY > 0.0 then 0.9 else 1.1), 1.0, 5.0)
  }

  /** From a zoom inside [1, 5], scrolling down never zooms in and scrolling
      up never zooms out. */
  lemma WheelZoomDirection(z: real, deltaY: real)
    requires 1.0 <= z <= 5.0
    ensures deltaY > 0.0 ==> WheelZoom(z, deltaY) <= z
    ensures deltaY <= 0.0 ==> WheelZoom(z, deltaY) >= z
  {
  }

  /** n wheel events in a row with the same deltaY. */
  function ZoomAfter(z: real, deltaY: real, n: nat): (r: real)
    requires 1.0 <= z <= 5.0
    ensures 1.0 <= r <= 5.0
    decreases n
  {
    if n == 0 then z else WheelZoom(ZoomAfter(z, deltaY, n - 1), deltaY)
  }

  /** From the initial zoom of 1, sixteen zoom-in steps stay below the
      maximum and the seventeenth reaches it. */
  lemma {:induction false} SeventeenStepsToMaximum()
    ensures ZoomAfter(1.0, -1.0, 16) < 5.0
    ensures ZoomAfter(1.0, -1.0, 17) == 5.0
  {
    var z := 1.0;
    var n := 0;
    Pow11Sixteen();
    while n < 16
      invariant 0 <= n <= 16
      invariant z == ZoomAfter(1.0, -1.0, n) && z == Pow11(n)
    {
      Pow11Increasing(n + 1, 16);
      z := WheelZoom(z, -1.0);
      n := n + 1;
    }
  }

  /** 1.1 to the power n. */
  function Pow11(n: nat): real
  {
    if n == 0 then 1.0 else 1.1 * Pow11(n - 1)
  }

  lemma {:induction false} Pow11Increasing(m: nat, n: nat)
    requires m <= n
    ensures 1.0 <= Pow11(m) <= Pow11(n)
    decreases n
  {
    if m < n {
      Pow11Increasing(m, n - 1);
    } else if m > 0 {
      Pow11Increasing(m - 1, m - 1);
    }
  }

  lemma Pow11Sixteen()
    ensures Pow11(16) < 5.0 <= 1.1 * Pow11(16)
  {
    assert Pow11(2) == 1.21;
    assert Pow11(4) == 1.4641;
    assert Pow11(6) == 1.771561;
    assert Pow11(8) == 2.14358881;
    assert Pow11(10) == 2.5937424601;
    assert Pow11(12) == 3.138428376721;
    assert Pow11(14) == 3.79749833583241;
    assert Pow11(16) == 4.5949729863572161;
  }

  // ---------------------------------------------------------------------
  // `parseInt(panel.timestamp.split(':')[0]) * 60 + parseInt(...split(':')[1])`

  /** The white space `parseInt` skips before the number: the ECMAScript
      white-space and line-terminator characters. */
  predicate IsJsSpace(c: char)
  {
    || c == '\t' || c == '\n' || c == '\U{000B}' || c == '\U{000C}' || c == '\r'
    || c == ' ' || c == '\U{00A0}' || c == '\U{1680}' || ('\U{2000}' <= c <= '\U{200A}')
    || c == '\U{2028}' || c == '\U{2029}' || c == '\U{202F}' || c == '\U{205F}'
    || c == '\U{3000}' || c == '\U{FEFF}'
  }

  /** The digit value of a character in bases up to 36; 36 for a character
      that is a digit in no base. */
  function DigitValue(c: char): (d: nat)
    ensures d <= 36
    ensures d < 10 <==> '0' <= c <= '9'
  {
    if '0' <= c <= '9' then c as int - '0' as int
    else if 'a' <= c <= 'z' then c as int - 'a' as int + 10
    else if 'A' <= c <= 'Z' then c as int - 'A' as int + 10
    else 36
  }

  /** The first index from i on that is not white space. */
  function SpaceEnd(s: string, i: nat): (j: nat)
    requires i <= |s|
    ensures i <= j <= |s|
    ensures j < |s| ==> !IsJsSpace(s[j])
    decreases |s| - i
  {
    if i < |s| && IsJsSpace(s[i]) then SpaceEnd(s, i + 1) else i
  }

  /** The end of the longest run of digits below radix that starts at i. */
  function DigitEnd(s: string, i: nat, radix: nat): (j: nat)
    requires i <= |s|
    ensures i <= j <= |s|
    ensures j < |s| ==> DigitValue(s[j]) >= radix
    decreases |s| - i
  {
    if i < |s| && DigitValue(s[i]) < radix then DigitEnd(s, i + 1, radix) else i
  }

  /** The value of the digits s[i..j] in base 10 or 16, most significant
      digit first. */
  function DigitsValue(s: string, i: nat, j: nat, radix: nat): nat
    requires i <= j <= |s| && (radix == 10 || radix == 16)
    decreases j - i
  {
    if j == i then 0
    else
      var high := DigitsValue(s, i, j - 1, radix);
      (if radix == 16 then 16 * high else 10 * high) + DigitValue(s[j - 1])
  }

  /** `parseInt(s)` with no radix: skip white space, take one optional sign,
      read base 16 after a `0x`/`0X` prefix and base 10 otherwise, and stop at
      the first character that is not a digit. None is NaN: no digit at all. */
  function ParseInt(s: string): (r: Option<int>)
  {
    var t := SpaceEnd(s, 0);
    var negative := t < |s| && s[t] == '-';
    var u := if t < |s| && (s[t] == '-' || s[t] == '+') then t + 1 else t;
    var hex := u + 1 < |s| && s[u] == '0' && (s[u + 1] == 'x' || s[u + 1] == 'X');
    var radix := if hex then 16 else 10;
    var start := if hex then u + 2 else u;
    var end := DigitEnd(s, start, radix);
    if end == start then None
    else
      var v: int := DigitsValue(s, start, end, radix);
      Some(if negative then -v else v)
  }

  /** The run `DigitEnd` stops at really consists of digits below radix. */
  lemma {:induction false} DigitRunIsDigits(s: string, i: nat, radix: nat, k: nat)
    requires i <= |s| && i <= k < DigitEnd(s, i, radix)
    ensures DigitValue(s[k]) < radix
    decreases |s| - i
  {
    if k > i {
      DigitRunIsDigits(s, i + 1, radix, k);
    }
  }

  predicate IsDecimal(s: string)
  {
    |s| > 0 && forall i :: 0 <= i < |s| ==> '0' <= s[i] <= '9'
  }

  /** The decimal value of a string of digits. */
  function DecimalValue(s: string): nat
  {
    DigitsValue(s, 0, |s|, 10)
  }

  lemma {:induction false} DigitEndOfDecimal(s: string, i: nat)
    requires IsDecimal(s) && i <= |s|
    ensures DigitEnd(s, i, 10) == |s|
    decreases |s| - i
  {
    if i < |s| {
      DigitEndOfDecimal(s, i + 1);
    }
  }

  /** A decimal digit string parses as its value: a leading "0" is never
      followed by an "x", so the hexadecimal prefix cannot occur. */
  lemma ParseDecimal(s: string)
    requires IsDecimal(s)
    ensures ParseInt(s) == Some(DecimalValue(s))
  {
    assert SpaceEnd(s, 0) == 0 by {
      assert !IsJsSpace(s[0]);
    }
    DigitEndOfDecimal(s, 0);
  }

  /** The first index from i on that holds a ':', or |s|. */
  function ColonFrom(s: string, i: nat): (j: nat)
    requires i <= |s|
    ensures i <= j <= |s|
    ensures j < |s| ==> s[j] == ':'
    decreases |s| - i
  {
    if i == |s| || s[i] == ':' then i else ColonFrom(s, i + 1)
  }

  /** `split(':')[0]` and `split(':')[1]`: the text before the first ':'
      and the text between it and the next ':' (or the end). None when there
      is no ':', so that the second field is missing. */
  function Fields(ts: string): Option<(string, string)>
  {
    var c := ColonFrom(ts, 0);
    if c == |ts| then None else Some((ts[..c], ts[c + 1..ColonFrom(ts, c + 1)]))
  }

  /** The argument the storyboard click passes to `jumpToTime`: the first
      field parsed as minutes, the second as seconds. None is NaN: a
      missing second field, or a field without digits. */
  function StoryboardSeconds(ts: string): Option<int>
  {
    var f := Fields(ts);
    if f.None? then None else MinutesAndSeconds(ParseInt(f.value.0), ParseInt(f.value.1))
  }

  /** `minutes * 60 + seconds`, NaN when either is NaN. */
  function MinutesAndSeconds(minutes: Option<int>, seconds: Option<int>): (r: Option<int>)
    ensures r.Some? <==> minutes.Some? && seconds.Some?
    ensures r.Some? ==> r.value == minutes.value * 60 + seconds.value
  {
    if minutes.None? || seconds.None? then None
    else Some(minutes.value * 60 + seconds.value)
  }

  predicate NoColon(s: string)
  {
    forall i :: 0 <= i < |s| ==> s[i] != ':'
  }

  lemma {:induction false} ColonAfter(ts: string, i: nat, d: string)
    requires NoColon(d) && i + |d| <= |ts| && ts[i..i + |d|] == d
    requires i + |d| == |ts| || ts[i + |d|] == ':'
    ensures ColonFrom(ts, i) == i + |d|
    decreases |d|
  {
    if |d| > 0 {
      assert ts[i] == d[0];
      assert ts[i + 1..i + |d|] == d[1..];
      ColonAfter(ts, i + 1, d[1..]);
    }
  }

  /** Splitting `mm:ss` gives back its two fields when neither holds a ':'
      and whatever follows starts a new field. */
  lemma FieldsOf(mm: string, ss: string, more: string)
    requires NoColon(mm) && NoColon(ss)
    requires |more| > 0 ==> more[0] == ':'
    ensures Fields(mm + ":" + ss + more) == Some((mm, ss))
  {
    var ts := mm + ":" + ss + more;
    var c := |mm|;
    assert ts[0..c] == mm;
    ColonAfter(ts, 0, mm);
    assert ts[c + 1..c + 1 + |ss|] == ss;
    ColonAfter(ts, c + 1, ss);
    assert ts[..c] == mm;
  }

  /** `"MM:SS"` with decimal minutes and seconds jumps to minutes * 60 +
      seconds; whatever follows a second ':' is ignored. */
  lemma StoryboardTimestamp(mm: string, ss: string, more: string)
    requires IsDecimal(mm) && IsDecimal(ss)
    requires |more| > 0 ==> more[0] == ':'
    ensures StoryboardSeconds(mm + ":" + ss + more)
         == Some(DecimalValue(mm) * 60 + DecimalValue(ss))
  {
    FieldsOf(mm, ss, more);
    SecondsOfFields(mm + ":" + ss + more, mm, ss);
    ParseDecimal(mm);
    ParseDecimal(ss);
  }

  lemma SecondsOfFields(ts: string, mm: string, ss: string)
    requires Fields(ts) == Some((mm, ss))
    ensures StoryboardSeconds(ts) == MinutesAndSeconds(ParseInt(mm), ParseInt(ss))
  {
  }

  /** A timestamp without ':' has no seconds field, so the jump target is NaN. */
  lemma StoryboardNeedsColon(ts: string)
    requires NoColon(ts)
    ensures StoryboardSeconds(ts).None?
  {
    ColonAfter(ts, 0, ts);
  }

  /** The hexadecimal prefix is honoured: "0x1:0" is 60 seconds. */
  lemma StoryboardHexMinutes()
    ensures StoryboardSeconds("0x1:0") == Some(60)
  {
    FieldsOf("0x1", "0", "");
    assert "0x1" + ":" + "0" + "" == "0x1:0";
    SecondsOfFields("0x1:0", "0x1", "0");
    HexOne();
    ParseDecimal("0");
  }

  lemma HexOne()
    ensures ParseInt("0x1") == Some(1)
  {
    assert SpaceEnd("0x1", 0) == 0;
    assert DigitEnd("0x1", 2, 16) == 3;
  }

  /** Seconds without digits make the jump target NaN. */
  lemma StoryboardBadSeconds()
    ensures StoryboardSeconds("1:xy") == None
  {
    FieldsOf("1", "xy", "");
    assert "1" + ":" + "xy" + "" == "1:xy";
    assert ParseInt("xy") == None;
  }
}
