/** The waveform editor of AudioStudio.tsx: the selected time range, and the
    cut, copy, paste, delete, trim, fade and reverse commands that build a new
    `AudioBuffer` channel by channel. A new buffer starts out silent; `set`
    copies a block into it at an offset, `subarray` clamps its bounds to the
    channel. Times are seconds, sample indices are `Math.floor(t * rate)`. */
module AudioEdit {
  import opened Numeric

  /** An `AudioBuffer`: one sample list per channel, all of `length` samples. */
  datatype AudioBuffer = AudioBuffer(channels: seq<seq<real>>, length: nat, rate: nat)

  predicate WellShaped(b: AudioBuffer)
  {
    && b.rate > 0
    && |b.channels| >= 1
    && forall c :: 0 <= c < |b.channels| ==> |b.channels[c]| == b.length
  }

  function Duration(b: AudioBuffer): real
    requires b.rate > 0
  {
    b.length as real / b.rate as real
  }

  /** The dragged selection; its end may lie before its start. */
  datatype Selection = Selection(start: real, end: real)

  datatype Range = Range(start: real, end: real)

  /** `getSelectedRange`: the selection ordered and clipped to the audio. It
      exists exactly when there is a selection and a buffer, starts at or
      after 0 and ends at or before the end of the audio; when the selection
      meets [0, duration] it is a proper interval. */
  function SelectedRange(sel: Option<Selection>, buffer: Option<AudioBuffer>): (r: Option<Range>)
    requires buffer.Some? ==> buffer.value.rate > 0
    ensures r.Some? <==> sel.Some? && buffer.Some?
    ensures r.Some? ==> 0.0 <= r.value.start && r.value.end <= Duration(buffer.value)
    ensures r.Some? && MinR(sel.value.start, sel.value.end) <= Duration(buffer.value)
            && MaxR(sel.value.start, sel.value.end) >= 0.0
            ==> r.value.start <= r.value.end
  {
    if sel.None? || buffer.None? then None
    else
      var start := MinR(sel.value.start, sel.value.end);
      var end := MaxR(sel.value.start, sel.value.end);
      Some(Range(MaxR(0.0, start), MinR(Duration(buffer.value), end)))
  }

  /** A time lies in the range iff it lies in the selection and in the audio. */
  lemma SelectedRangeIsIntersection(sel: Selection, b: AudioBuffer, t: real)
    requires b.rate > 0
    ensures var r := SelectedRange(Some(sel), Some(b)).value;
            (r.start <= t <= r.end)
            <==> (0.0 <= t <= Duration(b)
                  && MinR(sel.start, sel.end) <= t <= MaxR(sel.start, sel.end))
  {
  }

  /** `Math.floor(t * sampleRate)`. */
  function SampleIndex(t: real, rate: nat): int
  {
    Floor(t * rate as real)
  }

  lemma DurationTimesRate(b: AudioBuffer)
    requires b.rate > 0
    ensures Duration(b) * b.rate as real == b.length as real
  {
  }

  lemma ScaleLe(a: real, b: real, c: real)
    requires a <= b && c >= 0.0
    ensures a * c <= b * c
  {
    assert b * c - a * c == (b - a) * c;
  }

  /** A time inside the audio maps to a sample index in [0, length]. */
  lemma IndexWithin(t: real, b: AudioBuffer)
    requires b.rate > 0 && 0.0 <= t <= Duration(b)
    ensures 0 <= SampleIndex(t, b.rate) <= b.length
  {
    var rate := b.rate as real;
    DurationTimesRate(b);
    ScaleLe(t, Duration(b), rate);
    ScaleLe(0.0, t, rate);
    FloorMonotone(t * rate, b.length as real);
    FloorOfInt(b.length);
    FloorMonotone(0.0, t * rate);
  }

  /** The sample span of a range of a selection made on the waveform (whose
      click times are never negative): both ends are indices into the
      channel, and an unreversed span whenever the selection meets the
      audio. */
  lemma SpanBounds(sel: Selection, b: AudioBuffer)
    requires WellShaped(b) && sel.start >= 0.0 && sel.end >= 0.0
    ensures var r := SelectedRange(Some(sel), Some(b)).value;
            var s := SampleIndex(r.start, b.rate);
            var e := SampleIndex(r.end, b.rate);
            && 0 <= s && 0 <= e <= b.length
            && (MinR(sel.start, sel.end) <= Duration(b) ==> s <= e)
  {
    var r := SelectedRange(Some(sel), Some(b)).value;
    assert 0.0 <= r.end;
    RangeSpan(r, b);
  }

  /** The sample span of a range inside the audio. */
  lemma RangeSpan(r: Range, b: AudioBuffer)
    requires b.rate > 0 && 0.0 <= r.start && 0.0 <= r.end <= Duration(b)
    ensures 0 <= SampleIndex(r.start, b.rate)
    ensures 0 <= SampleIndex(r.end, b.rate) <= b.length
    ensures r.start <= r.end ==> SampleIndex(r.start, b.rate) <= SampleIndex(r.end, b.rate)
  {
    var rate := b.rate as real;
    IndexWithin(r.end, b);
    ScaleLe(0.0, r.start, rate);
    FloorMonotone(0.0, r.start * rate);
    FloorOfInt(0);
    if r.start <= r.end {
      ScaleLe(r.start, r.end, rate);
      FloorMonotone(r.start * rate, r.end * rate);
      assert SampleIndex(r.start, b.rate) == Floor(r.start * rate);
      assert SampleIndex(r.end, b.rate) == Floor(r.end * rate);
    }
  }

  function MinI(a: int, b: int): int
  {
    if a <= b then a else b
  }

  /** What a fresh channel holds before anything is copied into it. */
  function Silence(n: nat): (r: seq<real>)
    ensures |r| == n && forall i :: 0 <= i < n ==> r[i] == 0.0
  {
    seq(n, _ => 0.0)
  }

  /** `subarray(begin, end)` for non-negative bounds: both are clamped to the
      channel, and a reversed pair gives the empty view. */
  function Subarray(x: seq<real>, begin: int, end: int): (r: seq<real>)
    requires begin >= 0 && end >= 0
    ensures var b := MinI(begin, |x|);
            var e := MinI(end, |x|);
            (b < e ==> r == x[b..e]) && (b >= e ==> r == [])
  {
    var b := MinI(begin, |x|);
    var e := MinI(end, |x|);
    if b < e then x[b..e] else []
  }

  /** The channel that cut and delete build: `newData.set(old.subarray(0, s))`,
      then `newData.set(old.subarray(e), s)`, in a fresh channel of
      `length - (e - s)` samples (the positions no `set` reaches stay
      silent). */
  function Spliced(x: seq<real>, s: int, e: int): (r: seq<real>)
    requires 0 <= s && 0 <= e <= |x|
    ensures |r| == s + |x| - e
  {
    Subarray(x, 0, s) + Silence(s - MinI(s, |x|)) + x[e..]
  }

  /** For an unreversed span cutting keeps what lies before and after it. */
  lemma SplicedRemovesSpan(x: seq<real>, s: int, e: int)
    requires 0 <= s <= e <= |x|
    ensures Spliced(x, s, e) == x[..s] + x[e..]
    ensures |Spliced(x, s, e)| == |x| - (e - s)
  {
    if s == 0 {
      assert Subarray(x, 0, s) == [] == x[..0];
    }
  }

  /** The channel paste builds when the insertion point lies inside the
      audio. */
  function Inserted(x: seq<real>, k: int, clip: seq<real>): (r: seq<real>)
    requires 0 <= k <= |x|
    ensures |r| == |x| + |clip|
  {
    x[..k] + clip + x[k..]
  }

  /** Cutting a span and pasting the clipboard copy of it back at the start of
      the cut restores the channel. */
  lemma PasteUndoesCut(x: seq<real>, s: int, e: int)
    requires 0 <= s <= e <= |x|
    ensures Inserted(Spliced(x, s, e), s, x[s..e]) == x
  {
    SplicedRemovesSpan(x, s, e);
    var y := x[..s] + x[e..];
    assert y[..s] == x[..s];
    assert y[s..] == x[e..];
    assert x[..s] + x[s..e] + x[e..] == x;
  }

  /** The multiplier each command applies to sample `i` of the span [s, e):
      `i' / length` for fade-in and `1 - i' / length` for fade-out, where
      `i' = i - s` and `length = e - s`. */
  function FadeGain(i: int, s: int, e: int, rising: bool): real
    requires s <= i < e
  {
    var f := (i - s) as real / (e - s) as real;
    if rising then f else 1.0 - f
  }

  lemma FadeGainBounds(i: int, s: int, e: int, rising: bool)
    requires s <= i < e
    ensures 0.0 <= FadeGain(i, s, e, rising) <= 1.0
    ensures rising && i == s ==> FadeGain(i, s, e, rising) == 0.0
    ensures !rising && i == s ==> FadeGain(i, s, e, rising) == 1.0
  {
    var f := (i - s) as real / (e - s) as real;
    assert f * (e - s) as real == (i - s) as real;
  }

  /** The channel the fade loops leave: a copy of the input in which each
      sample of [s, e) is multiplied by its gain. With `e <= s` the loop does
      not run and the copy is unchanged. */
  function Faded(x: seq<real>, s: int, e: int, rising: bool): (r: seq<real>)
    ensures |r| == |x|
  {
    seq(|x|, i requires 0 <= i < |x| => if s <= i < e then x[i] * FadeGain(i, s, e, rising) else x[i])
  }

  lemma FadedAt(x: seq<real>, s: int, e: int, rising: bool, i: int)
    requires 0 <= i < |x|
    ensures s <= i < e ==> Faded(x, s, e, rising)[i] == x[i] * FadeGain(i, s, e, rising)
    ensures !(s <= i < e) ==> Faded(x, s, e, rising)[i] == x[i]
  {
  }

  /** The loop's factor at offset i is the gain at sample s + i. */
  lemma FactorIsGain(i: int, s: int, e: int, rising: bool)
    requires 0 <= i < e - s
    ensures FadeGain(s + i, s, e, rising)
         == if rising then i as real / (e - s) as real else 1.0 - i as real / (e - s) as real
  {
    assert (s + i) - s == i;
  }

  /** A channel holding the faded value at every index is the faded
      channel. */
  lemma FadedIs(t: seq<real>, x: seq<real>, s: int, e: int, rising: bool)
    requires |t| == |x|
    requires forall j :: 0 <= j < |x| && !(s <= j < e) ==> t[j] == x[j]
    requires forall j :: 0 <= j < |x| && s <= j < e ==> t[j] == x[j] * FadeGain(j, s, e, rising)
    ensures t == Faded(x, s, e, rising)
  {
    forall j | 0 <= j < |x|
      ensures t[j] == Faded(x, s, e, rising)[j]
    {
      FadedAt(x, s, e, rising, j);
    }
  }

  /** Both fades leave every sample outside [s, e) as it was; inside, a
      fade-in starts from silence, a fade-out starts at full level, and the
      two gains add up to one, so fading in and fading out the same span sum
      to the original. */
  lemma FadesComplement(x: seq<real>, s: int, e: int, i: int)
    requires 0 <= i < |x|
    ensures !(s <= i < e) ==> Faded(x, s, e, true)[i] == x[i] == Faded(x, s, e, false)[i]
    ensures s <= i < e ==> Faded(x, s, e, true)[i] + Faded(x, s, e, false)[i] == x[i]
    ensures i == s < e ==> Faded(x, s, e, true)[i] == 0.0 && Faded(x, s, e, false)[i] == x[i]
  {
    if s <= i < e {
      var f := FadeGain(i, s, e, true);
      assert x[i] * f + x[i] * (1.0 - f) == x[i];
      FadeGainBounds(i, s, e, true);
      FadeGainBounds(i, s, e, false);
    }
  }

  /** A fade never raises a sample's magnitude: each gain lies in [0, 1]. */
  lemma FadeAttenuates(x: seq<real>, s: int, e: int, rising: bool, i: int)
    requires 0 <= i < |x|
    ensures x[i] >= 0.0 ==> 0.0 <= Faded(x, s, e, rising)[i] <= x[i]
    ensures x[i] <= 0.0 ==> x[i] <= Faded(x, s, e, rising)[i] <= 0.0
  {
    if s <= i < e {
      var g := FadeGain(i, s, e, rising);
      FadeGainBounds(i, s, e, rising);
      assert Faded(x, s, e, rising)[i] == x[i] * g;
      assert x[i] - x[i] * g == x[i] * (1.0 - g);
      if x[i] >= 0.0 {
        ScaleLe(0.0, x[i], 1.0 - g);
        ScaleLe(0.0, x[i], g);
      } else {
        ScaleLe(x[i], 0.0, g);
        ScaleLe(x[i], 0.0, 1.0 - g);
      }
    }
  }

  /** The channel the reverse loop leaves: the clamped view [s, e) written
      back in the opposite order, every other sample copied. */
  function ReversedSpan(x: seq<real>, s: int, e: int): (r: seq<real>)
    requires 0 <= s && e <= |x|
    ensures |r| == |x|
  {
    seq(|x|, i requires 0 <= i < |x| => if s <= i < e then x[s + e - 1 - i] else x[i])
  }

  /** Reversing a span twice gives the channel back. */
  lemma ReverseTwice(x: seq<real>, s: int, e: int)
    requires 0 <= s < e <= |x|
    ensures ReversedSpan(ReversedSpan(x, s, e), s, e) == x
  {
    var y := ReversedSpan(x, s, e);
    var z := ReversedSpan(y, s, e);
    forall i | 0 <= i < |x|
      ensures z[i] == x[i]
    {
      if s <= i < e {
        var k := s + e - 1 - i;
        assert s <= k < e && s + e - 1 - k == i;
        assert z[i] == y[k];
        assert y[k] == x[i];
      }
    }
  }

  /** ... and the span's first and last samples trade places. */
  lemma ReverseSwapsEnds(x: seq<real>, s: int, e: int)
    requires 0 <= s < e <= |x|
    ensures ReversedSpan(x, s, e)[s] == x[e - 1] && ReversedSpan(x, s, e)[e - 1] == x[s]
  {
  }

  // ---------------------------------------------------------------------
  // The channel loops.

  /** `TypedArray.set(src, offset)`: copies `src` into `dst` from `offset` on.
      The caller keeps the block inside the array, where `set` would
      otherwise throw a `RangeError`. */
  method SetFrom(dst: array<real>, src: seq<real>, offset: nat)
    requires offset + |src| <= dst.Length
    modifies dst
    ensures dst[..] == old(dst[..])[..offset] + src + old(dst[..])[offset + |src|..]
  {
    ghost var before := dst[..];
    for j := 0 to |src|
      invariant forall i :: 0 <= i < dst.Length && !(offset <= i < offset + j) ==> dst[i] == before[i]
      invariant forall i :: offset <= i < offset + j ==> dst[i] == src[i - offset]
    {
      dst[offset + j] := src[j];
    }
    Overwritten(dst[..], before, offset, src);
  }

  /** `output.set(input)` on a fresh channel of the same length. */
  method CopyOf(x: seq<real>) returns (out: array<real>)
    ensures fresh(out) && out.Length == |x|
    ensures forall j :: 0 <= j < |x| ==> out[j] == x[j]
  {
    out := new real[|x|](_ => 0.0);
    SetFrom(out, x, 0);
  }

  /** Cut and delete on one channel. */
  method SpliceChannel(x: seq<real>, s: int, e: int) returns (out: array<real>)
    requires 0 <= s && 0 <= e <= |x|
    ensures fresh(out) && out[..] == Spliced(x, s, e)
  {
    out := new real[s + |x| - e](_ => 0.0);
    var head := Subarray(x, 0, s);
    SetFrom(out, head, 0);
    SetFrom(out, x[e..], s);
    assert out[..] == head + Silence(s - |head|) + x[e..];
  }

  /** Copy and trim on one channel: `set(subarray(s, e))` into a fresh
      channel of `e - s` samples. */
  method CopyChannel(x: seq<real>, s: int, e: int) returns (out: array<real>)
    requires 0 <= s < e <= |x|
    ensures fresh(out) && out[..] == x[s..e]
  {
    out := new real[e - s](_ => 0.0);
    SetFrom(out, Subarray(x, s, e), 0);
  }

  /** Paste on one channel, for an insertion point inside the audio. */
  method InsertChannel(x: seq<real>, k: int, clip: seq<real>) returns (out: array<real>)
    requires 0 <= k <= |x|
    ensures fresh(out) && out[..] == Inserted(x, k, clip)
  {
    out := new real[|x| + |clip|](_ => 0.0);
    var head := Subarray(x, 0, k);
    assert head == x[..k];
    SetFrom(out, head, 0);
    ghost var a := out[..];
    SetFrom(out, clip, k);
    ghost var b := out[..];
    assert b[..k + |clip|] == x[..k] + clip by {
      assert b == a[..k] + clip + a[k + |clip|..];
      assert a[..k] == x[..k];
    }
    SetFrom(out, x[k..], k + |clip|);
    assert out[..] == b[..k + |clip|] + x[k..];
  }

  /** Fade-in or fade-out on one channel: `output.set(input)`, then
      `output[s + i] *= factor` for `i < e - s`. */
  method FadeChannel(x: seq<real>, s: int, e: int, rising: bool) returns (out: array<real>)
    requires 0 <= s && e <= |x|
    ensures fresh(out) && out[..] == Faded(x, s, e, rising)
  {
    out := CopyOf(x);
    var length := e - s;
    if length > 0 {
      for i := 0 to length
        invariant forall j :: 0 <= j < s ==> out[j] == x[j]
        invariant forall j :: s + i <= j < |x| ==> out[j] == x[j]
        invariant forall j :: s <= j < s + i ==> out[j] == x[j] * FadeGain(j, s, e, rising)
      {
        var factor := if rising then i as real / length as real else 1.0 - i as real / length as real;
        FactorIsGain(i, s, e, rising);
        FadeSample(out, s + i, factor, x, s, e, rising);
      }
    }
    FadedIs(out[..], x, s, e, rising);
  }

  /** The loop body: `output[s + i] *= factor` on a sample not yet faded. */
  method FadeSample(out: array<real>, k: int, factor: real, ghost x: seq<real>, ghost s: int, ghost e: int, ghost rising: bool)
    requires |x| == out.Length && 0 <= s <= k < e <= |x| && out[k] == x[k]
    requires factor == FadeGain(k, s, e, rising)
    modifies out
    ensures out[k] == x[k] * FadeGain(k, s, e, rising)
    ensures forall j :: 0 <= j < out.Length && j != k ==> out[j] == old(out[j])
  {
    out[k] := out[k] * factor;
  }

  /** Reverse on one channel: `output.set(input)`, then
      `output[s + i] = slice[slice.length - 1 - i]` over the clamped view. */
  method ReverseChannel(x: seq<real>, s: int, e: int) returns (out: array<real>)
    requires 0 <= s && 0 <= e <= |x|
    ensures fresh(out) && out[..] == ReversedSpan(x, s, e)
  {
    out := CopyOf(x);
    var slice := Subarray(x, s, e);
    var n := |slice|;
    assert n == 0 || (s < e && slice == x[s..e] && n == e - s);
    for i := 0 to n
      invariant forall j :: 0 <= j < |x| && !(s <= j < s + i) ==> out[j] == x[j]
      invariant forall j :: s <= j < s + i ==> out[j] == x[s + e - 1 - j]
    {
      out[s + i] := slice[n - 1 - i];
    }
    assert forall j :: 0 <= j < |x| ==> out[j] == ReversedSpan(x, s, e)[j];
  }

  // ---------------------------------------------------------------------
  // Whole buffers.

  /** One command applied to every channel. */
  datatype ChannelEdit =
    | Splice(s: int, e: int)
    | Extract(s: int, e: int)
    | Fade(s: int, e: int, rising: bool)
    | Reverse(s: int, e: int)

  /** The spans each command is applied to by the handlers that reach it. */
  predicate Applies(op: ChannelEdit, length: nat)
  {
    match op
    case Splice(s, e) => 0 <= s && 0 <= e <= length
    case Extract(s, e) => 0 <= s < e <= length
    case Fade(s, e, _) => 0 <= s && e <= length
    case Reverse(s, e) => 0 <= s && 0 <= e <= length
  }

  function Edited(x: seq<real>, op: ChannelEdit): (r: seq<real>)
    requires Applies(op, |x|)
  {
    match op
    case Splice(s, e) => Spliced(x, s, e)
    case Extract(s, e) => x[s..e]
    case Fade(s, e, rising) => Faded(x, s, e, rising)
    case Reverse(s, e) => ReversedSpan(x, s, e)
  }

  function EditedLength(op: ChannelEdit, length: nat): nat
    requires Applies(op, length)
  {
    match op
    case Splice(s, e) => s + length - e
    case Extract(s, e) => e - s
    case _ => length
  }

  /** The new buffer: the command on every channel, same rate. */
  function EditedBuffer(b: AudioBuffer, op: ChannelEdit): (r: AudioBuffer)
    requires WellShaped(b) && Applies(op, b.length)
    ensures WellShaped(r) && |r.channels| == |b.channels| && r.rate == b.rate
    ensures r.length == EditedLength(op, b.length)
    ensures forall c :: 0 <= c < |b.channels| ==> r.channels[c] == Edited(b.channels[c], op)
  {
    AudioBuffer(seq(|b.channels|, c requires 0 <= c < |b.channels| => Edited(b.channels[c], op)),
                EditedLength(op, b.length), b.rate)
  }

  method EditChannel(x: seq<real>, op: ChannelEdit) returns (out: array<real>)
    requires Applies(op, |x|)
    ensures out[..] == Edited(x, op)
  {
    match op
    case Splice(s, e) => out := SpliceChannel(x, s, e);
    case Extract(s, e) => out := CopyChannel(x, s, e);
    case Fade(s, e, rising) => out := FadeChannel(x, s, e, rising);
    case Reverse(s, e) => out := ReverseChannel(x, s, e);
  }

  /** The `for (c = 0; c < numberOfChannels; c++)` loop of each handler. */
  method EditChannels(b: AudioBuffer, op: ChannelEdit) returns (r: AudioBuffer)
    requires WellShaped(b) && Applies(op, b.length)
    ensures r == EditedBuffer(b, op)
  {
    var chs: seq<seq<real>> := [];
    for c := 0 to |b.channels|
      invariant |chs| == c
      invariant forall d :: 0 <= d < c ==> chs[d] == Edited(b.channels[d], op)
    {
      var out := EditChannel(b.channels[c], op);
      chs := chs + [out[..]];
    }
    r := AudioBuffer(chs, EditedLength(op, b.length), b.rate);
  }

  /** Paste on the whole buffer: channel i of the clipboard goes into channel
      i of the audio. */
  function PastedBuffer(b: AudioBuffer, clip: AudioBuffer, k: int): (r: AudioBuffer)
    requires WellShaped(b) && WellShaped(clip) && |clip.channels| >= |b.channels|
    requires 0 <= k <= b.length
    ensures WellShaped(r) && |r.channels| == |b.channels| && r.rate == b.rate
    ensures r.length == b.length + clip.length
    ensures forall c :: 0 <= c < |b.channels| ==> r.channels[c] == Inserted(b.channels[c], k, clip.channels[c])
  {
    AudioBuffer(seq(|b.channels|, c requires 0 <= c < |b.channels| => Inserted(b.channels[c], k, clip.channels[c])),
                b.length + clip.length, b.rate)
  }

  method PasteChannels(b: AudioBuffer, clip: AudioBuffer, k: int) returns (r: AudioBuffer)
    requires WellShaped(b) && WellShaped(clip) && |clip.channels| >= |b.channels|
    requires 0 <= k <= b.length
    ensures r == PastedBuffer(b, clip, k)
  {
    var chs: seq<seq<real>> := [];
    for c := 0 to |b.channels|
      invariant |chs| == c
      invariant forall d :: 0 <= d < c ==> chs[d] == Inserted(b.channels[d], k, clip.channels[d])
    {
      var out := InsertChannel(b.channels[c], k, clip.channels[c]);
      chs := chs + [out[..]];
    }
    r := AudioBuffer(chs, b.length + clip.length, b.rate);
  }

  // ---------------------------------------------------------------------
  // What each handler does to the buffer and the clipboard.

  /** The sample span `[floor(range.start * rate), floor(range.end * rate))`. */
  function Span(b: AudioBuffer, r: Range): (int, int)
  {
    (SampleIndex(r.start, b.rate), SampleIndex(r.end, b.rate))
  }

  /** A selection made on the waveform: there is one, and its times are not
      negative. */
  predicate Selectable(sel: Option<Selection>)
  {
    sel.Some? ==> sel.value.start >= 0.0 && sel.value.end >= 0.0
  }

  /** `handleCopy` and `handleTrim`: the clipped span of every channel, or
      nothing when the span holds no sample. */
  function CopyOutcome(sel: Option<Selection>, b: AudioBuffer): (r: Option<AudioBuffer>)
    requires WellShaped(b) && Selectable(sel)
  {
    match SelectedRange(sel, Some(b))
    case None => None
    case Some(range) =>
      SpanBounds(sel.value, b);
      var (s, e) := Span(b, range);
      if e - s <= 0 then None else Some(EditedBuffer(b, Extract(s, e)))
  }

  /** `handleCut` and `handleDelete`: every channel with the span removed, or
      nothing when the result would have no sample. */
  function CutOutcome(sel: Option<Selection>, b: AudioBuffer): (r: Option<AudioBuffer>)
    requires WellShaped(b) && Selectable(sel)
  {
    match SelectedRange(sel, Some(b))
    case None => None
    case Some(range) =>
      SpanBounds(sel.value, b);
      var (s, e) := Span(b, range);
      if b.length - (e - s) <= 0 then None else Some(EditedBuffer(b, Splice(s, e)))
  }

  /** Copy and trim give exactly the samples [s, e) of every channel. */
  lemma CopyIsSpan(sel: Selection, b: AudioBuffer)
    requires WellShaped(b) && sel.start >= 0.0 && sel.end >= 0.0
    ensures var (s, e) := Span(b, SelectedRange(Some(sel), Some(b)).value);
            match CopyOutcome(Some(sel), b)
            case None => s >= e
            case Some(r) =>
              && 0 <= s < e <= b.length && r.length == e - s
              && |r.channels| == |b.channels|
              && forall c :: 0 <= c < |b.channels| ==> r.channels[c] == b.channels[c][s..e]
  {
    SpanBounds(sel, b);
  }

  /** Cut and delete of a selection that meets the audio keep every channel's
      samples before and after the span, and shorten it by the span. */
  lemma CutRemovesSpan(sel: Selection, b: AudioBuffer)
    requires WellShaped(b) && sel.start >= 0.0 && sel.end >= 0.0
    requires MinR(sel.start, sel.end) <= Duration(b)
    ensures var (s, e) := Span(b, SelectedRange(Some(sel), Some(b)).value);
            match CutOutcome(Some(sel), b)
            case None => s == 0 && e == b.length
            case Some(r) =>
              && 0 <= s <= e <= b.length && r.length == b.length - (e - s)
              && forall c :: 0 <= c < |b.channels| ==> r.channels[c] == b.channels[c][..s] + b.channels[c][e..]
  {
    SpanBounds(sel, b);
    var (s, e) := Span(b, SelectedRange(Some(sel), Some(b)).value);
    forall c | 0 <= c < |b.channels| {
      SplicedRemovesSpan(b.channels[c], s, e);
    }
  }

  /** Cut followed by paste at the start of the cut restores the audio, for
      a selection that meets it and does not cover all of it. */
  lemma CutThenPasteRestores(sel: Selection, b: AudioBuffer)
    requires WellShaped(b) && sel.start >= 0.0 && sel.end >= 0.0
    requires MinR(sel.start, sel.end) <= Duration(b)
    requires CutOutcome(Some(sel), b).Some? && CopyOutcome(Some(sel), b).Some?
    ensures var (s, _) := Span(b, SelectedRange(Some(sel), Some(b)).value);
            var cut := CutOutcome(Some(sel), b).value;
            var clip := CopyOutcome(Some(sel), b).value;
            0 <= s <= cut.length && PastedBuffer(cut, clip, s) == b
  {
    SpanBounds(sel, b);
    var (s, e) := Span(b, SelectedRange(Some(sel), Some(b)).value);
    var cut := CutOutcome(Some(sel), b).value;
    var clip := CopyOutcome(Some(sel), b).value;
    var p := PastedBuffer(cut, clip, s);
    forall c | 0 <= c < |b.channels|
      ensures p.channels[c] == b.channels[c]
    {
      PasteUndoesCut(b.channels[c], s, e);
    }
  }

  /** A cut of a selection lying wholly past the end of the audio appends
      silence instead of doing nothing: one second of audio at rate 1, with
      the selection [3, 4] seconds, becomes three samples long. */
  lemma CutPastEndAppendsSilence()
    ensures CutOutcome(Some(Selection(3.0, 4.0)), AudioBuffer([[0.5]], 1, 1))
            == Some(AudioBuffer([[0.5, 0.0, 0.0]], 3, 1))
  {
    var b := AudioBuffer([[0.5]], 1, 1);
    var sel := Selection(3.0, 4.0);
    var range := SelectedRange(Some(sel), Some(b)).value;
    assert range == Range(3.0, 1.0);
    assert Span(b, range) == (3, 1);
    assert Silence(2) == [0.0, 0.0];
    assert Spliced([0.5], 3, 1) == [0.5, 0.0, 0.0];
    var r := EditedBuffer(b, Splice(3, 1));
    assert r.channels == [[0.5, 0.0, 0.0]];
  }

  /** The cut the selection evidently asks for: nothing happens when the span
      holds no sample of the audio. */
  function IntendedCutOutcome(sel: Option<Selection>, b: AudioBuffer): (r: Option<AudioBuffer>)
    requires WellShaped(b) && Selectable(sel)
  {
    match SelectedRange(sel, Some(b))
    case None => None
    case Some(range) =>
      SpanBounds(sel.value, b);
      var (s, e) := Span(b, range);
      if s >= e || b.length - (e - s) <= 0 then None else Some(EditedBuffer(b, Splice(s, e)))
  }

  /** The corrected cut never lengthens the audio, always removes exactly
      one span of it, and agrees with the written cut whenever the selection
      meets the audio. */
  lemma IntendedCutShortens(sel: Selection, b: AudioBuffer)
    requires WellShaped(b) && sel.start >= 0.0 && sel.end >= 0.0
    ensures var (s, e) := Span(b, SelectedRange(Some(sel), Some(b)).value);
            match IntendedCutOutcome(Some(sel), b)
            case None => true
            case Some(r) =>
              && 0 <= s < e <= b.length && r.length < b.length
              && forall c :: 0 <= c < |b.channels| ==> r.channels[c] == b.channels[c][..s] + b.channels[c][e..]
    ensures MinR(sel.start, sel.end) <= Duration(b) && CutOutcome(Some(sel), b).Some?
            && IntendedCutOutcome(Some(sel), b).None?
            ==> CutOutcome(Some(sel), b).value == b
  {
    SpanBounds(sel, b);
    var (s, e) := Span(b, SelectedRange(Some(sel), Some(b)).value);
    if s < e {
      forall c | 0 <= c < |b.channels| {
        SplicedRemovesSpan(b.channels[c], s, e);
      }
    }
    if MinR(sel.start, sel.end) <= Duration(b) && CutOutcome(Some(sel), b).Some? && s >= e {
      var r := CutOutcome(Some(sel), b).value;
      forall c | 0 <= c < |b.channels|
        ensures r.channels[c] == b.channels[c]
      {
        SplicedRemovesSpan(b.channels[c], s, e);
        assert b.channels[c][..s] + b.channels[c][s..] == b.channels[c];
      }
    }
  }

  /** `handlePaste`: the clipboard inserted at the cursor's sample in every
      channel. The `set` that places the clipboard throws when the cursor
      lies past the end of the audio, and reading a clipboard channel the
      clipboard does not have throws too; both are `None`. */
  function PasteOutcome(b: AudioBuffer, clip: AudioBuffer, cursor: real): (r: Option<AudioBuffer>)
    requires WellShaped(b) && WellShaped(clip) && cursor >= 0.0
    ensures r.Some? <==> SampleIndex(cursor, b.rate) <= b.length && |clip.channels| >= |b.channels|
    ensures r.Some? ==> r.value.length == b.length + clip.length
  {
    var k := SampleIndex(cursor, b.rate);
    FloorMonotone(0.0, cursor * b.rate as real);
    if k > b.length || |clip.channels| < |b.channels| then None
    else Some(PastedBuffer(b, clip, k))
  }

  /** For a cursor inside the audio each channel becomes its samples before
      the cursor, the clipboard's channel, then the rest. */
  lemma PasteInsertsClip(b: AudioBuffer, clip: AudioBuffer, cursor: real)
    requires WellShaped(b) && WellShaped(clip) && 0.0 <= cursor <= Duration(b)
    requires |clip.channels| >= |b.channels|
    ensures var k := SampleIndex(cursor, b.rate);
            && 0 <= k <= b.length
            && PasteOutcome(b, clip, cursor).Some?
            && forall c :: 0 <= c < |b.channels| ==>
                 PasteOutcome(b, clip, cursor).value.channels[c]
                 == b.channels[c][..k] + clip.channels[c] + b.channels[c][k..]
  {
    DurationTimesRate(b);
    var rate := b.rate as real;
    assert cursor * rate <= Duration(b) * rate;
    FloorMonotone(cursor * rate, b.length as real);
    FloorOfInt(b.length);
    FloorMonotone(0.0, cursor * rate);
  }

  /** `handleFadeIn`, `handleFadeOut` and `handleReverse` always build a new
      buffer of the same shape. */
  function InPlaceOutcome(sel: Option<Selection>, b: AudioBuffer, kind: ChannelEdit): (r: Option<AudioBuffer>)
    requires WellShaped(b) && Selectable(sel)
    requires kind.Fade? || kind.Reverse?
  {
    match SelectedRange(sel, Some(b))
    case None => None
    case Some(range) =>
      SpanBounds(sel.value, b);
      var (s, e) := Span(b, range);
      Some(EditedBuffer(b, if kind.Fade? then Fade(s, e, kind.rising) else Reverse(s, e)))
  }

  /** Fades and reverse keep the length and leave every sample outside the
      span alone; reversing the same selection twice restores the audio. */
  lemma InPlaceKeepsOutside(sel: Selection, b: AudioBuffer, kind: ChannelEdit, c: int, i: int)
    requires WellShaped(b) && sel.start >= 0.0 && sel.end >= 0.0
    requires kind.Fade? || kind.Reverse?
    requires 0 <= c < |b.channels| && 0 <= i < b.length
    ensures var (s, e) := Span(b, SelectedRange(Some(sel), Some(b)).value);
            var r := InPlaceOutcome(Some(sel), b, kind).value;
            && r.length == b.length
            && (!(s <= i < e) ==> r.channels[c][i] == b.channels[c][i])
  {
    SpanBounds(sel, b);
  }

  lemma ReverseSelectionTwice(sel: Selection, b: AudioBuffer)
    requires WellShaped(b) && sel.start >= 0.0 && sel.end >= 0.0
    ensures var once := InPlaceOutcome(Some(sel), b, Reverse(0, 0)).value;
            WellShaped(once)
            && InPlaceOutcome(Some(sel), once, Reverse(0, 0)) == Some(b)
  {
    SpanBounds(sel, b);
    var (s, e) := Span(b, SelectedRange(Some(sel), Some(b)).value);
    var once := InPlaceOutcome(Some(sel), b, Reverse(0, 0)).value;
    assert Duration(once) == Duration(b);
    assert SelectedRange(Some(sel), Some(once)) == SelectedRange(Some(sel), Some(b));
    var twice := InPlaceOutcome(Some(sel), once, Reverse(0, 0)).value;
    forall c | 0 <= c < |b.channels|
      ensures twice.channels[c] == b.channels[c]
    {
      if s < e {
        ReverseTwice(b.channels[c], s, e);
      } else {
        assert ReversedSpan(b.channels[c], s, e) == b.channels[c];
        assert ReversedSpan(once.channels[c], s, e) == once.channels[c];
      }
    }
    assert twice.channels == b.channels;
  }

  // ---------------------------------------------------------------------
  // The editor state the handlers read and replace.

  class AudioEditor {
    var buffer: Option<AudioBuffer>
    var selection: Option<Selection>
    var cursor: real
    var clipboard: Option<AudioBuffer>
    /** `seekOnLoad`: where playback resumes once the new buffer is loaded. */
    var seek: Option<real>

    ghost predicate Valid()
      reads this
    {
      && (buffer.Some? ==> WellShaped(buffer.value))
      && (clipboard.Some? ==> WellShaped(clipboard.value))
      && Selectable(selection)
      && cursor >= 0.0
    }

    /** A freshly loaded track: no selection, empty clipboard, cursor at 0. */
    constructor (track: AudioBuffer)
      requires WellShaped(track)
      ensures Valid()
      ensures buffer == Some(track) && selection == None && cursor == 0.0
      ensures clipboard == None && seek == None
    {
      buffer := Some(track);
      selection := None;
      cursor := 0.0;
      clipboard := None;
      seek := None;
    }

    /** `handleCanvasMouseDown` at a click time: a shift-click moves the end
        of an existing selection, any other click starts a new, empty one
        and moves the cursor there. */
    method MouseDown(clickTime: real, shift: bool)
      requires Valid() && clickTime >= 0.0
      modifies this
      ensures Valid()
      ensures shift && old(selection).Some?
              ==> selection == Some(Selection(old(selection).value.start, clickTime)) && cursor == old(cursor)
      ensures !(shift && old(selection).Some?)
              ==> selection == Some(Selection(clickTime, clickTime)) && cursor == clickTime
      ensures buffer == old(buffer) && clipboard == old(clipboard) && seek == old(seek)
    {
      if shift && selection.Some? {
        selection := Some(Selection(selection.value.start, clickTime));
      } else {
        selection := Some(Selection(clickTime, clickTime));
        cursor := clickTime;
      }
    }

    /** `handleCanvasMouseMove` with the button held: drags the end of the
        selection and the cursor along. */
    method MouseMove(clickTime: real)
      requires Valid() && clickTime >= 0.0
      modifies this
      ensures Valid()
      ensures old(selection).Some? ==> selection == Some(Selection(old(selection).value.start, clickTime)) && cursor == clickTime
      ensures old(selection).None? ==> selection == None && cursor == old(cursor)
      ensures buffer == old(buffer) && clipboard == old(clipboard) && seek == old(seek)
    {
      if selection.Some? {
        selection := Some(Selection(selection.value.start, clickTime));
        cursor := clickTime;
      }
    }

    /** `updateMainBuffer`: the new buffer replaces the old one, playback
        will resume at the given time, and the selection is dropped. */
    method UpdateMainBuffer(nb: AudioBuffer, timeToSeek: real)
      requires Valid() && WellShaped(nb)
      modifies this
      ensures Valid()
      ensures buffer == Some(nb) && seek == Some(timeToSeek) && selection == None
      ensures clipboard == old(clipboard) && cursor == old(cursor)
    {
      buffer := Some(nb);
      seek := Some(timeToSeek);
      selection := None;
    }

    /** `handleCopy`: the clipboard receives the span of every channel. */
    method Copy()
      requires Valid()
      modifies this
      ensures Valid()
      ensures old(buffer).Some? && CopyOutcome(old(selection), old(buffer).value).Some?
              ==> clipboard == CopyOutcome(old(selection), old(buffer).value)
      ensures old(buffer).None? || CopyOutcome(old(selection), old(buffer).value).None?
              ==> clipboard == old(clipboard)
      ensures buffer == old(buffer) && selection == old(selection)
      ensures cursor == old(cursor) && seek == old(seek)
    {
      if buffer.None? || selection.None? {
        return;
      }
      var b := buffer.value;
      var range := SelectedRange(selection, buffer).value;
      SpanBounds(selection.value, b);
      var s := SampleIndex(range.start, b.rate);
      var e := SampleIndex(range.end, b.rate);
      var length := e - s;
      if length <= 0 {
        return;
      }
      var nb := EditChannels(b, Extract(s, e));
      clipboard := Some(nb);
    }

    /** `handleDelete`: the span is removed from every channel unless that
        would leave no sample; playback resumes at the range start. */
    method Delete()
      requires Valid()
      modifies this
      ensures Valid()
      ensures old(buffer).Some? && CutOutcome(old(selection), old(buffer).value).Some?
              ==> && buffer == CutOutcome(old(selection), old(buffer).value)
                  && seek == Some(SelectedRange(old(selection), old(buffer)).value.start)
                  && selection == None
      ensures old(buffer).None? || CutOutcome(old(selection), old(buffer).value).None?
              ==> buffer == old(buffer) && seek == old(seek) && selection == old(selection)
      ensures clipboard == old(clipboard) && cursor == old(cursor)
    {
      if buffer.None? || selection.None? {
        return;
      }
      var b := buffer.value;
      var range := SelectedRange(selection, buffer).value;
      SpanBounds(selection.value, b);
      var s := SampleIndex(range.start, b.rate);
      var e := SampleIndex(range.end, b.rate);
      var newLength := b.length - (e - s);
      if newLength <= 0 {
        return;
      }
      var nb := EditChannels(b, Splice(s, e));
      UpdateMainBuffer(nb, range.start);
    }

    /** `handleCut`: `handleCopy`, then what `handleDelete` does. The copy
        happens even when the removal is refused. */
    method Cut()
      requires Valid()
      modifies this
      ensures Valid()
      ensures old(buffer).Some? && CopyOutcome(old(selection), old(buffer).value).Some?
              ==> clipboard == CopyOutcome(old(selection), old(buffer).value)
      ensures old(buffer).None? || CopyOutcome(old(selection), old(buffer).value).None?
              ==> clipboard == old(clipboard)
      ensures old(buffer).Some? && CutOutcome(old(selection), old(buffer).value).Some?
              ==> && buffer == CutOutcome(old(selection), old(buffer).value)
                  && seek == Some(SelectedRange(old(selection), old(buffer)).value.start)
                  && selection == None
      ensures old(buffer).None? || CutOutcome(old(selection), old(buffer).value).None?
              ==> buffer == old(buffer) && seek == old(seek) && selection == old(selection)
      ensures cursor == old(cursor)
    {
      if buffer.None? || selection.None? {
        return;
      }
      Copy();
      Delete();
    }

    /** `handleTrim`: the buffer becomes the span of every channel, and
        playback restarts at 0. */
    method Trim()
      requires Valid()
      modifies this
      ensures Valid()
      ensures old(buffer).Some? && CopyOutcome(old(selection), old(buffer).value).Some?
              ==> buffer == CopyOutcome(old(selection), old(buffer).value) && seek == Some(0.0) && selection == None
      ensures old(buffer).None? || CopyOutcome(old(selection), old(buffer).value).None?
              ==> buffer == old(buffer) && seek == old(seek) && selection == old(selection)
      ensures clipboard == old(clipboard) && cursor == old(cursor)
    {
      if buffer.None? || selection.None? {
        return;
      }
      var b := buffer.value;
      var range := SelectedRange(selection, buffer).value;
      SpanBounds(selection.value, b);
      var s := SampleIndex(range.start, b.rate);
      var e := SampleIndex(range.end, b.rate);
      var length := e - s;
      if length <= 0 {
        return;
      }
      var nb := EditChannels(b, Extract(s, e));
      UpdateMainBuffer(nb, 0.0);
    }

    /** `handleFadeIn` (`rising`) and `handleFadeOut`, and `handleReverse`:
        with a range, the buffer is rebuilt whatever the span, and playback
        resumes at the range start. */
    method InPlace(kind: ChannelEdit)
      requires Valid() && (kind.Fade? || kind.Reverse?)
      modifies this
      ensures Valid()
      ensures old(buffer).Some? && old(selection).Some?
              ==> && buffer == InPlaceOutcome(old(selection), old(buffer).value, kind)
                  && seek == Some(SelectedRange(old(selection), old(buffer)).value.start)
                  && selection == None
      ensures old(buffer).None? || old(selection).None?
              ==> buffer == old(buffer) && seek == old(seek) && selection == old(selection)
      ensures clipboard == old(clipboard) && cursor == old(cursor)
    {
      if buffer.None? || selection.None? {
        return;
      }
      var b := buffer.value;
      var range := SelectedRange(selection, buffer).value;
      SpanBounds(selection.value, b);
      var s := SampleIndex(range.start, b.rate);
      var e := SampleIndex(range.end, b.rate);
      var op := if kind.Fade? then Fade(s, e, kind.rising) else Reverse(s, e);
      var nb := EditChannels(b, op);
      UpdateMainBuffer(nb, range.start);
    }

    /** `handlePaste`: the clipboard goes in at the cursor's sample. When a
        `set` or a channel read throws, `thrown` is set and nothing
        changes. */
    method Paste() returns (thrown: bool)
      requires Valid()
      modifies this
      ensures Valid()
      ensures thrown <==> old(buffer).Some? && old(clipboard).Some?
                          && PasteOutcome(old(buffer).value, old(clipboard).value, old(cursor)).None?
      ensures old(buffer).Some? && old(clipboard).Some? && !thrown
              ==> && buffer == PasteOutcome(old(buffer).value, old(clipboard).value, old(cursor))
                  && seek == Some(old(cursor)) && selection == None
      ensures old(buffer).None? || old(clipboard).None? || thrown
              ==> buffer == old(buffer) && seek == old(seek) && selection == old(selection)
      ensures clipboard == old(clipboard) && cursor == old(cursor)
    {
      thrown := false;
      if clipboard.None? || buffer.None? {
        return;
      }
      var b := buffer.value;
      var clip := clipboard.value;
      var insertTime := cursor;
      var k := SampleIndex(insertTime, b.rate);
      FloorMonotone(0.0, insertTime * b.rate as real);
      if k > b.length || |clip.channels| < |b.channels| {
        thrown := true;
        return;
      }
      var nb := PasteChannels(b, clip, k);
      UpdateMainBuffer(nb, insertTime);
    }
  }
}
