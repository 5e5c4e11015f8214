/** AudioStudio's WAV export: `interleave` merges a stereo pair into one
    sample array, `createWavBlob` converts float samples to 16-bit PCM behind
    the shared 44-byte header, and `audioBufferToWav` picks what to encode. */
module AudioWav {
  import opened Numeric
  import opened Wav

  /** `Math.max(-1, Math.min(1, x))`, then `s * 0x8000` for a negative s and
      `s * 0x7FFF` otherwise. */
  function ScaledSample(x: real): (v: real)
    ensures -32768.0 <= v <= 32767.0
  {
    var s := Clamp(x, -1.0, 1.0);
    if s < 0.0 then s * 32768.0 else s * 32767.0
  }

  /** ECMAScript's ToInt16, which `setInt16` applies to its argument:
      truncate toward zero, then wrap into [-32768, 32767]. */
  function ToInt16(x: real): (v: int)
    ensures -0x8000 <= v < 0x8000
    ensures -32768.0 <= x < 32768.0 ==> v == Trunc(x)
  {
    var m := Trunc(x) % 0x1_0000;
    if m >= 0x8000 then m - 0x1_0000 else m
  }

  /** The 16-bit value stored for one float sample. */
  function SampleValue(x: real): (v: int)
    ensures -32768 <= v <= 32767
  {
    ToInt16(ScaledSample(x))
  }

  /** The scaled sample never needs the wrap-around: the stored value is the
      truncation of the scaled sample. */
  lemma SampleValueIsTruncation(x: real)
    ensures SampleValue(x) == Trunc(ScaledSample(x))
  {
  }

  /** Full scale maps to the ends of the 16-bit range, silence to 0, and
      anything beyond full scale is clipped. */
  lemma SampleValueEnds(x: real)
    ensures x <= -1.0 ==> SampleValue(x) == -32768
    ensures x >= 1.0 ==> SampleValue(x) == 32767
    ensures SampleValue(0.0) == 0
  {
  }

  /** The conversion keeps the sign of the sample. */
  lemma SampleValueSign(x: real)
    ensures x < 0.0 ==> SampleValue(x) <= 0
    ensures x >= 0.0 ==> SampleValue(x) >= 0
  {
  }

  lemma TruncMonotone(x: real, y: real)
    requires x <= y
    ensures Trunc(x) <= Trunc(y)
  {
    if x >= 0.0 {
      FloorMonotone(x, y);
    } else if y < 0.0 {
      FloorMonotone(-y, -x);
    }
  }

  lemma ScaledMonotone(x: real, y: real)
    requires x <= y
    ensures ScaledSample(x) <= ScaledSample(y)
  {
    ClampMonotone(x, y, -1.0, 1.0);
    var s, t := Clamp(x, -1.0, 1.0), Clamp(y, -1.0, 1.0);
    if s < 0.0 && t < 0.0 {
      assert t * 32768.0 - s * 32768.0 == (t - s) * 32768.0;
    } else if s >= 0.0 && t >= 0.0 {
      assert t * 32767.0 - s * 32767.0 == (t - s) * 32767.0;
    }
  }

  /** A louder float sample never gets a smaller 16-bit value. */
  lemma SampleValueMonotone(x: real, y: real)
    requires x <= y
    ensures SampleValue(x) <= SampleValue(y)
  {
    ScaledMonotone(x, y);
    TruncMonotone(ScaledSample(x), ScaledSample(y));
  }

  /** Reading a little-endian two's-complement 16-bit field. */
  function ReadI16(b: seq<byte>): (v: int)
    requires |b| == 2
    ensures -0x8000 <= v < 0x8000
  {
    var u := ReadU16(b);
    if u >= 0x8000 then u - 0x1_0000 else u
  }

  /** `setInt16` followed by a signed read gives the value back. */
  lemma I16RoundTrip(v: int)
    requires -0x8000 <= v < 0x8000
    ensures ReadI16(U16LE(v)) == v
  {
    U16RoundTrip(v);
  }

  /** The PCM bytes of a sample array: two little-endian bytes per sample. */
  function PcmBytes(pcm: seq<real>): (r: seq<byte>)
    ensures |r| == 2 * |pcm|
  {
    if |pcm| == 0 then []
    else PcmBytes(pcm[..|pcm| - 1]) + U16LE(SampleValue(pcm[|pcm| - 1]))
  }

  /** Sample i sits at bytes 2i and 2i + 1 of the PCM data and reads back as
      its 16-bit value. */
  lemma {:induction false} PcmSampleAt(pcm: seq<real>, i: nat)
    requires i < |pcm|
    ensures PcmBytes(pcm)[2 * i..2 * i + 2] == U16LE(SampleValue(pcm[i]))
    ensures ReadI16(PcmBytes(pcm)[2 * i..2 * i + 2]) == SampleValue(pcm[i])
    decreases |pcm|
  {
    var init := pcm[..|pcm| - 1];
    if i < |pcm| - 1 {
      PcmSampleAt(init, i);
      assert init[i] == pcm[i];
      assert PcmBytes(pcm)[2 * i..2 * i + 2] == PcmBytes(init)[2 * i..2 * i + 2];
    }
    I16RoundTrip(SampleValue(pcm[i]));
  }

  function Zeros(n: nat): (z: seq<byte>)
    ensures |z| == n && forall i :: 0 <= i < n ==> z[i] == 0
  {
    seq(n, _ => 0)
  }

  /** `view.setInt16(offset, v, true)`. */
  method SetInt16(buf: array<byte>, offset: nat, v: real)
    requires offset + 2 <= buf.Length
    modifies buf
    ensures buf[..] == old(buf[..])[..offset] + U16LE(ToInt16(v)) + old(buf[..])[offset + 2..]
  {
    SetBytes(buf, offset, U16LE(ToInt16(v)));
  }

  lemma PcmStep(h: seq<byte>, pcm: seq<real>, i: nat, cur: seq<byte>)
    requires |h| == 44 && i < |pcm|
    requires cur == h + PcmBytes(pcm[..i]) + Zeros(2 * (|pcm| - i))
    ensures cur[..44 + 2 * i] + U16LE(SampleValue(pcm[i])) + cur[44 + 2 * i + 2..]
         == h + PcmBytes(pcm[..i + 1]) + Zeros(2 * (|pcm| - (i + 1)))
  {
    assert pcm[..i + 1][..i] == pcm[..i];
    assert cur[..44 + 2 * i] == h + PcmBytes(pcm[..i]);
    assert cur[44 + 2 * i + 2..] == Zeros(2 * (|pcm| - (i + 1)));
  }

  /** `createWavBlob(pcm, sampleRate, numChannels)`: a zero-filled buffer of
      44 + 2n bytes, the header for 2n data bytes, then one `setInt16` per
      sample at a running offset that starts at 44. */
  method CreateWavBlob(pcm: seq<real>, sampleRate: int, numChannels: int) returns (buf: array<byte>)
    ensures fresh(buf)
    ensures buf[..] == Header(numChannels, sampleRate, |pcm| * 2) + PcmBytes(pcm)
  {
    buf := NewBuffer(44 + |pcm| * 2);
    ghost var h := Header(numChannels, sampleRate, |pcm| * 2);
    assert buf[..][44..] == Zeros(2 * |pcm|);
    WriteHeader(buf, numChannels, sampleRate, |pcm| * 2);
    assert pcm[..0] == [];
    var offset := 44;
    for i := 0 to |pcm|
      invariant offset == 44 + 2 * i
      invariant buf[..] == h + PcmBytes(pcm[..i]) + Zeros(2 * (|pcm| - i))
    {
      PcmStep(h, pcm, i, buf[..]);
      SetInt16(buf, offset, ScaledSample(pcm[i]));
      offset := offset + 2;
    }
    assert pcm[..|pcm|] == pcm;
  }

  /** The interleaved stereo samples L0 R0 L1 R1 ... */
  function Interleaved(l: seq<real>, r: seq<real>): (out: seq<real>)
    requires |l| == |r|
    ensures |out| == |l| + |r|
  {
    if |l| == 0 then [] else Interleaved(l[..|l| - 1], r[..|r| - 1]) + [l[|l| - 1], r[|r| - 1]]
  }

  lemma {:induction false} InterleavedAt(l: seq<real>, r: seq<real>, i: nat)
    requires |l| == |r| && i < |l|
    ensures Interleaved(l, r)[2 * i] == l[i] && Interleaved(l, r)[2 * i + 1] == r[i]
    decreases |l|
  {
    if i < |l| - 1 {
      InterleavedAt(l[..|l| - 1], r[..|r| - 1], i);
    }
  }

  /** The samples at even positions: the left channel of an interleaved
      array. */
  function Evens(s: seq<real>): (e: seq<real>)
    requires |s| % 2 == 0
    ensures |e| == |s| / 2
    ensures forall i :: 0 <= i < |e| ==> e[i] == s[2 * i]
  {
    seq(|s| / 2, i requires 0 <= i < |s| / 2 => s[2 * i])
  }

  /** The samples at odd positions: the right channel. */
  function Odds(s: seq<real>): (o: seq<real>)
    requires |s| % 2 == 0
    ensures |o| == |s| / 2
    ensures forall i :: 0 <= i < |o| ==> o[i] == s[2 * i + 1]
  {
    seq(|s| / 2, i requires 0 <= i < |s| / 2 => s[2 * i + 1])
  }

  /** Splitting an interleaved array gives back both channels. */
  lemma DeinterleaveInverts(l: seq<real>, r: seq<real>)
    requires |l| == |r|
    ensures Evens(Interleaved(l, r)) == l && Odds(Interleaved(l, r)) == r
  {
    forall i | 0 <= i < |l|
      ensures Evens(Interleaved(l, r))[i] == l[i] && Odds(Interleaved(l, r))[i] == r[i]
    {
      InterleavedAt(l, r, i);
    }
  }

  /** `interleave(inputL, inputR)` on two channels of one buffer, which always
      have the same length: a `while` loop with the output index advancing by
      two and the input index by one. */
  method Interleave(inputL: seq<real>, inputR: seq<real>) returns (result: array<real>)
    requires |inputL| == |inputR|
    ensures fresh(result)
    ensures result[..] == Interleaved(inputL, inputR)
    ensures forall i :: 0 <= i < |inputL| ==> result[2 * i] == inputL[i] && result[2 * i + 1] == inputR[i]
  {
    var length := |inputL| + |inputR|;
    result := new real[length](_ => 0.0);
    var index := 0;
    var inputIndex := 0;
    while index < length
      invariant index == 2 * inputIndex && index <= length
      invariant forall k :: 0 <= k < inputIndex ==> result[2 * k] == inputL[k] && result[2 * k + 1] == inputR[k]
      decreases length - index
    {
      result[index] := inputL[inputIndex];
      index := index + 1;
      result[index] := inputR[inputIndex];
      index := index + 1;
      inputIndex := inputIndex + 1;
    }
    forall i | 0 <= i < length
      ensures result[i] == Interleaved(inputL, inputR)[i]
    {
      InterleavedAt(inputL, inputR, i / 2);
    }
  }

  /** What `audioBufferToWav` encodes: the interleaved pair for two channels,
      otherwise channel 0 alone. */
  function EncodedSamples(channels: seq<seq<real>>): seq<real>
    requires |channels| >= 1
    requires forall c :: 0 <= c < |channels| ==> |channels[c]| == |channels[0]|
  {
    if |channels| == 2 then Interleaved(channels[0], channels[1]) else channels[0]
  }

  /** `audioBufferToWav(buffer)`: the channel count and rate of the buffer go
      into the header in front of the samples chosen above. */
  method AudioBufferToWav(channels: seq<seq<real>>, sampleRate: int) returns (buf: array<byte>)
    requires |channels| >= 1
    requires forall c :: 0 <= c < |channels| ==> |channels[c]| == |channels[0]|
    ensures fresh(buf)
    ensures var data := EncodedSamples(channels);
            buf[..] == Header(|channels|, sampleRate, |data| * 2) + PcmBytes(data)
  {
    var numChannels := |channels|;
    var result: seq<real>;
    if numChannels == 2 {
      var merged := Interleave(channels[0], channels[1]);
      result := merged[..];
    } else {
      result := channels[0];
    }
    buf := CreateWavBlob(result, sampleRate, numChannels);
  }

  /** A stereo file holds 4 bytes per frame and announces a block align of 4:
      the data size is a whole number of frames. */
  lemma StereoDataIsWholeFrames(l: seq<real>, r: seq<real>)
    requires |l| == |r|
    ensures |EncodedSamples([l, r])| * 2 == (2 * 2) * |l|
  {
  }

  /** For more than two channels the header announces `channels * 2` bytes per
      frame while the data holds only channel 0 at 2 bytes per sample: for
      three channels of one frame the data is 2 bytes, less than one 6-byte
      frame. */
  lemma SurroundHeaderMismatch(a: real, b: real, c: real)
    ensures var data := EncodedSamples([[a], [b], [c]]);
            |data| * 2 == 2 && 3 * 2 == 6 && (|data| * 2) % (3 * 2) != 0
  {
  }

  /** Frame f of a many-channel buffer: one sample per channel, in channel
      order. */
  function Frame(channels: seq<seq<real>>, f: nat): (s: seq<real>)
    requires forall c :: 0 <= c < |channels| ==> f < |channels[c]|
    ensures |s| == |channels|
  {
    seq(|channels|, c requires 0 <= c < |channels| => channels[c][f])
  }

  /** All channels interleaved frame by frame, first frame first. */
  function InterleavedAll(channels: seq<seq<real>>, frames: nat): (out: seq<real>)
    requires forall c :: 0 <= c < |channels| ==> frames <= |channels[c]|
    ensures |out| == |channels| * frames
  {
    if frames == 0 then []
    else InterleavedAll(channels, frames - 1) + Frame(channels, frames - 1)
  }

  /** The samples a WAV file of `|channels|` channels needs: sample c of frame
      f at position f * channels + c. */
  lemma {:induction false} InterleavedAllAt(channels: seq<seq<real>>, frames: nat, f: nat, c: nat)
    requires forall k :: 0 <= k < |channels| ==> frames <= |channels[k]|
    requires f < frames && c < |channels|
    ensures f * |channels| + c < |InterleavedAll(channels, frames)|
    ensures InterleavedAll(channels, frames)[f * |channels| + c] == channels[c][f]
    decreases frames
  {
    var n := |channels|;
    var prev := InterleavedAll(channels, frames - 1);
    assert |prev| == n * (frames - 1);
    if f < frames - 1 {
      InterleavedAllAt(channels, frames - 1, f, c);
      FrameIndexBelow(f, c, n, frames - 1);
    } else {
      assert f * n == n * (frames - 1);
    }
  }

  lemma FrameIndexBelow(f: nat, c: nat, n: nat, frames: nat)
    requires f < frames && c < n
    ensures f * n + c < n * frames
  {
    var g: nat := frames - f - 1;
    assert frames * n == (f + 1) * n + g * n;
    assert (f + 1) * n == f * n + n;
    assert n * frames == frames * n;
  }

  /** The samples the encoder is evidently meant to write: every channel,
      interleaved; for one and two channels this is what it writes. */
  function IntendedSamples(channels: seq<seq<real>>): seq<real>
    requires |channels| >= 1
    requires forall c :: 0 <= c < |channels| ==> |channels[c]| == |channels[0]|
  {
    InterleavedAll(channels, |channels[0]|)
  }

  /** The intended encoding always carries a whole number of frames of the
      announced block align, one frame per sample of a channel. */
  lemma IntendedDataIsWholeFrames(channels: seq<seq<real>>)
    requires |channels| >= 1
    requires forall c :: 0 <= c < |channels| ==> |channels[c]| == |channels[0]|
    ensures |IntendedSamples(channels)| * 2 == (|channels| * 2) * |channels[0]|
  {
  }

  /** For mono and stereo buffers the intended encoding is the one written. */
  lemma IntendedAgreesUpToStereo(channels: seq<seq<real>>)
    requires 1 <= |channels| <= 2
    requires forall c :: 0 <= c < |channels| ==> |channels[c]| == |channels[0]|
    ensures IntendedSamples(channels) == EncodedSamples(channels)
  {
    var n := |channels[0]|;
    var got, want := IntendedSamples(channels), EncodedSamples(channels);
    assert |got| == |want|;
    forall k | 0 <= k < |got|
      ensures got[k] == want[k]
    {
      var f, c := k / |channels|, k % |channels|;
      assert k == f * |channels| + c;
      InterleavedAllAt(channels, n, f, c);
      if |channels| == 2 {
        InterleavedAt(channels[0], channels[1], f);
      }
    }
  }

  /** The intended `audioBufferToWav`: the same header, over all channels
      interleaved. */
  method AudioBufferToWavIntended(channels: seq<seq<real>>, sampleRate: int) returns (buf: array<byte>)
    requires |channels| >= 1
    requires forall c :: 0 <= c < |channels| ==> |channels[c]| == |channels[0]|
    ensures fresh(buf)
    ensures var data := IntendedSamples(channels);
            buf[..] == Header(|channels|, sampleRate, |data| * 2) + PcmBytes(data)
  {
    buf := CreateWavBlob(IntendedSamples(channels), sampleRate, |channels|);
  }
}
