/** The 44-byte RIFF/WAVE header that VideoStudio (`base64ToWavBlob`) and
    AudioStudio (`createWavBlob`) write in front of 16-bit PCM data, and the
    `DataView` writes that produce it. Every multi-byte field is little-endian;
    `setUint16` and `setUint32` reduce their argument modulo 2^16 and 2^32 and
    `setUint8` modulo 2^8, as JavaScript's ToUint16/ToUint32/ToUint8 do. */
module Wav {
  import opened Numeric

  /** `setUint16(offset, v, true)`: the two bytes of v mod 2^16, low first. */
  function U16LE(v: int): (r: seq<byte>)
    ensures |r| == 2
  {
    var u := v % 0x1_0000;
    [(u % 0x100) as byte, (u / 0x100) as byte]
  }

  /** `setUint32(offset, v, true)`: the four bytes of v mod 2^32, low first. */
  function U32LE(v: int): (r: seq<byte>)
    ensures |r| == 4
  {
    var u := v % 0x1_0000_0000;
    [(u % 0x100) as byte, (u / 0x100 % 0x100) as byte,
     (u / 0x1_0000 % 0x100) as byte, (u / 0x100_0000) as byte]
  }

  /** Reading back a little-endian 16-bit field. */
  function ReadU16(b: seq<byte>): (v: int)
    requires |b| == 2
    ensures 0 <= v < 0x1_0000
  {
    b[0] as int + 0x100 * b[1] as int
  }

  /** Reading back a little-endian 32-bit field. */
  function ReadU32(b: seq<byte>): (v: int)
    requires |b| == 4
    ensures 0 <= v < 0x1_0000_0000
  {
    b[0] as int + 0x100 * b[1] as int + 0x1_0000 * b[2] as int + 0x100_0000 * b[3] as int
  }

  /** A 16-bit field reads back as the written value modulo 2^16. */
  lemma U16RoundTrip(v: int)
    ensures ReadU16(U16LE(v)) == v % 0x1_0000
  {
    var u := v % 0x1_0000;
    assert u == u % 0x100 + 0x100 * (u / 0x100);
  }

  /** A 32-bit field reads back as the written value modulo 2^32. */
  lemma U32RoundTrip(v: int)
    ensures ReadU32(U32LE(v)) == v % 0x1_0000_0000
  {
    var u := v % 0x1_0000_0000;
    var q1 := u / 0x100;
    var q2 := u / 0x1_0000;
    assert u == u % 0x100 + 0x100 * q1;
    assert q1 == q1 % 0x100 + 0x100 * (q1 / 0x100);
    assert q1 / 0x100 == q2;
    assert q2 == q2 % 0x100 + 0x100 * (q2 / 0x100);
    assert q2 / 0x100 == u / 0x100_0000;
  }

  /** Every pair of bytes is the encoding of the value it reads as. */
  lemma U16Surjective(b: seq<byte>)
    requires |b| == 2
    ensures U16LE(ReadU16(b)) == b
  {
    var v := ReadU16(b);
    assert v % 0x1_0000 == v;
    assert v % 0x100 == b[0] as int;
    assert v / 0x100 == b[1] as int;
  }

  /** `writeString`: each character's code unit, reduced modulo 2^8 by
      `setUint8`. */
  function Tag(s: string): (r: seq<byte>)
    ensures |r| == |s|
    ensures forall i :: 0 <= i < |s| ==> r[i] as int == s[i] as int % 0x100
  {
    if |s| == 0 then [] else [((s[0] as int) % 0x100) as byte] + Tag(s[1..])
  }

  /** The fields a WAVE header carries. */
  datatype Format = Format(riffSize: int, channels: int, sampleRate: int,
                           byteRate: int, blockAlign: int, bitsPerSample: int,
                           dataSize: int)

  /** The RIFF chunk descriptor: tag, the size of what follows, WAVE tag. */
  function RiffDescriptor(dataSize: int): (r: seq<byte>)
    ensures |r| == 12
    ensures r[0..4] == Tag("RIFF") && r[4..8] == U32LE(36 + dataSize) && r[8..12] == Tag("WAVE")
  {
    Tag("RIFF") + U32LE(36 + dataSize) + Tag("WAVE")
  }

  /** The `fmt ` sub-chunk of 16-bit PCM: block align `channels * 2` and byte
      rate `rate * channels * 2`. */
  function FmtChunk(channels: int, rate: int): (r: seq<byte>)
    ensures |r| == 24
    ensures r[0..4] == Tag("fmt ") && r[4..8] == U32LE(16) && r[8..10] == U16LE(1)
    ensures r[10..12] == U16LE(channels) && r[12..16] == U32LE(rate)
    ensures r[16..20] == U32LE(rate * channels * 2) && r[20..22] == U16LE(channels * 2)
    ensures r[22..24] == U16LE(16)
  {
    var a := Tag("fmt ") + U32LE(16) + U16LE(1) + U16LE(channels);
    var b := U32LE(rate) + U32LE(rate * channels * 2);
    var c := U16LE(channels * 2) + U16LE(16);
    assert (a + b + c)[..12] == a && (a + b + c)[12..20] == b && (a + b + c)[20..] == c;
    a + b + c
  }

  /** The header of the data sub-chunk: tag and size. */
  function DataChunkHeader(dataSize: int): (r: seq<byte>)
    ensures |r| == 8
    ensures r[0..4] == Tag("data") && r[4..8] == U32LE(dataSize)
  {
    Tag("data") + U32LE(dataSize)
  }

  /** The header both editors write for `channels` interleaved 16-bit channels
      at `rate` samples per second in front of `dataSize` bytes of PCM data. */
  function Header(channels: int, rate: int, dataSize: int): (h: seq<byte>)
    ensures |h| == 44
  {
    RiffDescriptor(dataSize) + FmtChunk(channels, rate) + DataChunkHeader(dataSize)
  }

  /** The reader the header is meant for: four tags at fixed offsets, a 16-byte
      PCM (format 1) `fmt ` chunk, and the numeric fields decoded. */
  function ParseHeader(h: seq<byte>): (r: Option<Format>)
    ensures r.Some? ==> |h| >= 44 && h[0..4] == Tag("RIFF") && h[8..12] == Tag("WAVE")
    ensures r.Some? ==> h[12..16] == Tag("fmt ") && h[36..40] == Tag("data")
  {
    if |h| < 44 || h[0..4] != Tag("RIFF") || h[8..12] != Tag("WAVE")
       || h[12..16] != Tag("fmt ") || h[36..40] != Tag("data")
       || ReadU32(h[16..20]) != 16 || ReadU16(h[20..22]) != 1
    then None
    else Some(Format(ReadU32(h[4..8]), ReadU16(h[22..24]), ReadU32(h[24..28]),
                     ReadU32(h[28..32]), ReadU16(h[32..34]), ReadU16(h[34..36]),
                     ReadU32(h[40..44])))
  }

  /** Where each piece of the header sits. */
  lemma HeaderSlices(channels: int, rate: int, dataSize: int)
    ensures var h := Header(channels, rate, dataSize);
            && h[0..4] == Tag("RIFF") && h[4..8] == U32LE(36 + dataSize)
            && h[8..12] == Tag("WAVE") && h[12..16] == Tag("fmt ")
            && h[16..20] == U32LE(16) && h[20..22] == U16LE(1)
            && h[22..24] == U16LE(channels) && h[24..28] == U32LE(rate)
            && h[28..32] == U32LE(rate * channels * 2) && h[32..34] == U16LE(channels * 2)
            && h[34..36] == U16LE(16) && h[36..40] == Tag("data")
            && h[40..44] == U32LE(dataSize)
  {
    var h := Header(channels, rate, dataSize);
    var r, f, d := RiffDescriptor(dataSize), FmtChunk(channels, rate), DataChunkHeader(dataSize);
    assert h[..12] == r && h[12..36] == f && h[36..] == d;
    assert forall i, j :: 12 <= i <= j <= 36 ==> h[i..j] == f[i - 12..j - 12];
  }

  /** Round trip: the header parses back to the format it describes, every
      field reduced to its width exactly as the `DataView` setters reduce it. */
  lemma HeaderParses(channels: int, rate: int, dataSize: int)
    ensures ParseHeader(Header(channels, rate, dataSize))
         == Some(Format((36 + dataSize) % 0x1_0000_0000, channels % 0x1_0000,
                        rate % 0x1_0000_0000, (rate * channels * 2) % 0x1_0000_0000,
                        (channels * 2) % 0x1_0000, 16, dataSize % 0x1_0000_0000))
  {
    HeaderSlices(channels, rate, dataSize);
    FixedFieldsRead();
    U32RoundTrip(36 + dataSize);
    U32RoundTrip(dataSize);
    U16RoundTrip(channels);
    U32RoundTrip(rate);
    U32RoundTrip(rate * channels * 2);
    U16RoundTrip(channels * 2);
    U16RoundTrip(16);
  }

  /** The two constant fields the reader checks read back as 16 and 1. */
  lemma FixedFieldsRead()
    ensures ReadU32(U32LE(16)) == 16 && ReadU16(U16LE(1)) == 1
  {
    U32RoundTrip(16);
    U16RoundTrip(1);
  }

  /** For a buffer that fits the 32-bit size fields no field wraps: the RIFF
      size is the data size plus 36, the block align is the channel count
      times two bytes, and the byte rate is the sample rate times the block
      align. */
  lemma HeaderConsistent(channels: int, rate: int, dataSize: int)
    requires 1 <= channels < 0x8000 && 0 <= rate && rate * channels * 2 < 0x1_0000_0000
    requires 0 <= dataSize && 36 + dataSize < 0x1_0000_0000
    ensures ParseHeader(Header(channels, rate, dataSize))
         == Some(Format(dataSize + 36, channels, rate, rate * (channels * 2), channels * 2, 16, dataSize))
  {
    HeaderParses(channels, rate, dataSize);
    FieldsFit(channels, rate, dataSize, rate * channels * 2);
  }

  lemma FieldsFit(channels: int, rate: int, dataSize: int, byteRate: int)
    requires byteRate == rate * channels * 2
    requires 1 <= channels < 0x8000 && 0 <= rate && byteRate < 0x1_0000_0000
    requires 0 <= dataSize && 36 + dataSize < 0x1_0000_0000
    ensures Format((36 + dataSize) % 0x1_0000_0000, channels % 0x1_0000,
                   rate % 0x1_0000_0000, byteRate % 0x1_0000_0000,
                   (channels * 2) % 0x1_0000, 16, dataSize % 0x1_0000_0000)
         == Format(dataSize + 36, channels, rate, rate * (channels * 2), channels * 2, 16, dataSize)
  {
    RateBelowByteRate(rate, channels * 2);
    assert rate * (channels * 2) == byteRate;
  }

  lemma RateBelowByteRate(rate: int, blockAlign: int)
    requires rate >= 0 && blockAlign >= 1
    ensures rate <= rate * blockAlign
  {
  }

  /** Writing bytes: everything outside [offset, offset + |bs|) is kept. */
  method SetBytes(buf: array<byte>, offset: nat, bs: seq<byte>)
    requires offset + |bs| <= buf.Length
    modifies buf
    ensures buf[..] == old(buf[..])[..offset] + bs + old(buf[..])[offset + |bs|..]
  {
    ghost var before := buf[..];
    for i := 0 to |bs|
      invariant forall j :: 0 <= j < buf.Length && !(offset <= j < offset + i) ==> buf[j] == before[j]
      invariant forall j :: offset <= j < offset + i ==> buf[j] == bs[j - offset]
    {
      buf[offset + i] := bs[i];
    }
    Overwritten(buf[..], before, offset, bs);
  }

  /** `writeString(view, offset, s)`: one `setUint8` per character. */
  method WriteString(buf: array<byte>, offset: nat, s: string)
    requires offset + |s| <= buf.Length
    modifies buf
    ensures buf[..] == old(buf[..])[..offset] + Tag(s) + old(buf[..])[offset + |s|..]
  {
    ghost var before := buf[..];
    ghost var tag := Tag(s);
    for i := 0 to |s|
      invariant forall j :: 0 <= j < buf.Length && !(offset <= j < offset + i) ==> buf[j] == before[j]
      invariant forall j :: offset <= j < offset + i ==> buf[j] == tag[j - offset]
    {
      buf[offset + i] := ((s[i] as int) % 0x100) as byte;
    }
    Overwritten(buf[..], before, offset, tag);
  }

  method SetUint16(buf: array<byte>, offset: nat, v: int)
    requires offset + 2 <= buf.Length
    modifies buf
    ensures buf[..] == old(buf[..])[..offset] + U16LE(v) + old(buf[..])[offset + 2..]
  {
    SetBytes(buf, offset, U16LE(v));
  }

  method SetUint32(buf: array<byte>, offset: nat, v: int)
    requires offset + 4 <= buf.Length
    modifies buf
    ensures buf[..] == old(buf[..])[..offset] + U32LE(v) + old(buf[..])[offset + 4..]
  {
    SetBytes(buf, offset, U32LE(v));
  }

  /** A chunk `h` being written at offset `o` into what was `rest`, its
      first `k` bytes done. */
  ghost predicate Partly(buf: seq<byte>, o: nat, h: seq<byte>, rest: seq<byte>, k: nat)
    requires o + |h| <= |rest| && k <= |h|
  {
    buf == rest[..o] + h[..k] + rest[o + k..]
  }

  /** Writing the next piece `bs` of the chunk over a buffer that holds its
      first `k` bytes leaves one that holds its first `k + |bs|` bytes. */
  lemma WrittenStep(o: nat, h: seq<byte>, rest: seq<byte>, k: nat, bs: seq<byte>, cur: seq<byte>, next: seq<byte>)
    requires o + |h| <= |rest| && k + |bs| <= |h| && h[k..k + |bs|] == bs
    requires Partly(cur, o, h, rest, k)
    requires next == cur[..o + k] + bs + cur[o + k + |bs|..]
    ensures Partly(next, o, h, rest, k + |bs|)
  {
    var r := rest[..o] + h[..k + |bs|] + rest[o + k + |bs|..];
    assert |next| == |r| == |rest|;
    forall j | 0 <= j < |next|
      ensures next[j] == r[j]
    {
      if j < o {
        assert next[j] == cur[j] == rest[j] == r[j];
      } else if j < o + k {
        assert next[j] == cur[j] == h[j - o] == r[j];
      } else if j < o + k + |bs| {
        assert next[j] == bs[j - o - k] == h[j - o] == r[j];
      } else {
        assert next[j] == cur[j] == rest[j] == r[j];
      }
    }
  }

  /** The next piece of the chunk is a tag. */
  method PutTag(buf: array<byte>, o: nat, ghost h: seq<byte>, ghost rest: seq<byte>, k: nat, s: string)
    requires o + |h| <= |rest| == buf.Length && k + |s| <= |h| && h[k..k + |s|] == Tag(s)
    requires Partly(buf[..], o, h, rest, k)
    modifies buf
    ensures Partly(buf[..], o, h, rest, k + |s|)
  {
    ghost var cur := buf[..];
    WriteString(buf, o + k, s);
    WrittenStep(o, h, rest, k, Tag(s), cur, buf[..]);
  }

  /** The next piece of the chunk is a 32-bit field. */
  method PutUint32(buf: array<byte>, o: nat, ghost h: seq<byte>, ghost rest: seq<byte>, k: nat, v: int)
    requires o + |h| <= |rest| == buf.Length && k + 4 <= |h| && h[k..k + 4] == U32LE(v)
    requires Partly(buf[..], o, h, rest, k)
    modifies buf
    ensures Partly(buf[..], o, h, rest, k + 4)
  {
    ghost var cur := buf[..];
    SetUint32(buf, o + k, v);
    WrittenStep(o, h, rest, k, U32LE(v), cur, buf[..]);
  }

  /** The next piece of the chunk is a 16-bit field. */
  method PutUint16(buf: array<byte>, o: nat, ghost h: seq<byte>, ghost rest: seq<byte>, k: nat, v: int)
    requires o + |h| <= |rest| == buf.Length && k + 2 <= |h| && h[k..k + 2] == U16LE(v)
    requires Partly(buf[..], o, h, rest, k)
    modifies buf
    ensures Partly(buf[..], o, h, rest, k + 2)
  {
    ghost var cur := buf[..];
    SetUint16(buf, o + k, v);
    WrittenStep(o, h, rest, k, U16LE(v), cur, buf[..]);
  }

  /** Offsets 0 to 11: `RIFF`, the RIFF size, `WAVE`. */
  method WriteRiffDescriptor(buf: array<byte>, dataSize: int)
    requires buf.Length >= 44
    modifies buf
    ensures buf[..] == RiffDescriptor(dataSize) + old(buf[..])[12..]
  {
    WriteTagged(buf, "RIFF", 36 + dataSize, "WAVE");
  }

  /** A four-byte tag, a 32-bit field and another four-byte tag at the
      start of the buffer. */
  method WriteTagged(buf: array<byte>, a: string, v: int, b: string)
    requires |a| == 4 && |b| == 4 && buf.Length >= 12
    modifies buf
    ensures buf[..] == Tag(a) + U32LE(v) + Tag(b) + old(buf[..])[12..]
  {
    ghost var h := Tag(a) + U32LE(v) + Tag(b);
    ghost var rest := buf[..];
    assert Partly(buf[..], 0, h, rest, 0);
    PutTag(buf, 0, h, rest, 0, a);
    PutUint32(buf, 0, h, rest, 4, v);
    PutTag(buf, 0, h, rest, 8, b);
    assert h[..12] == h;
  }

  /** Offsets 12 to 35: the `fmt ` sub-chunk. */
  method WriteFmtChunk(buf: array<byte>, channels: int, rate: int)
    requires buf.Length >= 44
    modifies buf
    ensures buf[..] == old(buf[..])[..12] + FmtChunk(channels, rate) + old(buf[..])[36..]
  {
    ghost var h := FmtChunk(channels, rate);
    ghost var rest := buf[..];
    assert Partly(buf[..], 12, h, rest, 0);
    PutTag(buf, 12, h, rest, 0, "fmt ");
    PutUint32(buf, 12, h, rest, 4, 16);
    PutUint16(buf, 12, h, rest, 8, 1);
    PutUint16(buf, 12, h, rest, 10, channels);
    PutUint32(buf, 12, h, rest, 12, rate);
    PutUint32(buf, 12, h, rest, 16, rate * channels * 2);
    PutUint16(buf, 12, h, rest, 20, channels * 2);
    PutUint16(buf, 12, h, rest, 22, 16);
    assert h[..24] == h;
  }

  /** Offsets 36 to 43: `data` and the data size. */
  method WriteDataChunkHeader(buf: array<byte>, dataSize: int)
    requires buf.Length >= 44
    modifies buf
    ensures buf[..] == old(buf[..])[..36] + DataChunkHeader(dataSize) + old(buf[..])[44..]
  {
    ghost var h := DataChunkHeader(dataSize);
    ghost var rest := buf[..];
    assert Partly(buf[..], 36, h, rest, 0);
    PutTag(buf, 36, h, rest, 0, "data");
    PutUint32(buf, 36, h, rest, 4, dataSize);
    assert h[..8] == h;
  }

  /** The thirteen writes of the header, in the source's order, into a buffer
      of at least 44 bytes; the bytes after the header are untouched. */
  method WriteHeader(buf: array<byte>, channels: int, rate: int, dataSize: int)
    requires buf.Length >= 44
    modifies buf
    ensures buf[..] == Header(channels, rate, dataSize) + old(buf[..])[44..]
  {
    ghost var rest := buf[..];
    WriteRiffDescriptor(buf, dataSize);
    ghost var b1 := buf[..];
    WriteFmtChunk(buf, channels, rate);
    assert buf[..] == RiffDescriptor(dataSize) + FmtChunk(channels, rate) + rest[36..] by {
      assert b1[..12] == RiffDescriptor(dataSize);
      assert b1[36..] == rest[36..];
    }
    ghost var b2 := buf[..];
    WriteDataChunkHeader(buf, dataSize);
    assert b2[..36] == RiffDescriptor(dataSize) + FmtChunk(channels, rate);
    assert b2[44..] == rest[44..];
  }

  /** `new ArrayBuffer(n)`: n zero bytes. */
  method NewBuffer(n: nat) returns (buf: array<byte>)
    ensures fresh(buf) && buf.Length == n
    ensures forall i :: 0 <= i < n ==> buf[i] == 0
  {
    buf := new byte[n](_ => 0);
  }
}
