/** The per-note encoder of `cutAndSave`: the output buffer for one trimmed
    note, holding the input's header with the channel count patched and the
    note's samples re-encoded with a linear fade-out. */
module Encoder {
  import opened Util
  import opened SampleCodec
  import opened Segmenter

  /** `numChannels`: 1 without a right channel, otherwise 2. */
  function NumChannels(right: Option<seq<int>>): (n: int)
    ensures n == 1 || n == 2
    ensures n == 2 <==> right.Some?
  {
    if right.None? then 1 else 2
  }

  /** Bytes one frame of the note takes: three per channel. */
  function FrameSize(right: Option<seq<int>>): (n: int)
    ensures n == 3 * NumChannels(right)
  {
    if right.None? then 3 else 6
  }

  /** Where frame i starts relative to the end of the header:
      `i * numChannels * bytesPerSample`. */
  function FrameOffset(right: Option<seq<int>>, i: int): int {
    if right.None? then 3 * i else 6 * i
  }

  /** The source's product `i * numChannels * 3` is the frame offset. */
  lemma Offsets(right: Option<seq<int>>, numChannels: int, i: int)
    requires numChannels == NumChannels(right)
    ensures i * numChannels * 3 == FrameOffset(right, i)
  {
    if numChannels == 1 {
      assert i * numChannels == i;
    } else {
      assert i * numChannels == 2 * i;
    }
  }

  /** The multiplier applied to sample i of the note: 1 up to the last audible
      sample, then `1 - (i - fadeOutStart) / (samplesToCopy - fadeOutStart)`,
      a linear ramp towards 0 over the fade-out. */
  function Volume(i: int, cut: Cut): (v: real)
    ensures i <= cut.fadeOutStart ==> v == 1.0
    ensures cut.fadeOutStart < i < cut.samplesToCopy ==> 0.0 < v < 1.0
  {
    if i > cut.fadeOutStart && cut.fadeOutStart < cut.samplesToCopy then
      1.0 - (i - cut.fadeOutStart) as real / (cut.samplesToCopy - cut.fadeOutStart) as real
    else 1.0
  }

  /** Along the note the multiplier never grows. */
  lemma VolumeNonIncreasing(cut: Cut, i: int, j: int)
    requires 0 <= i <= j < cut.samplesToCopy
    ensures Volume(j, cut) <= Volume(i, cut)
  {
    if i > cut.fadeOutStart {
      var d := (cut.samplesToCopy - cut.fadeOutStart) as real;
      assert (i - cut.fadeOutStart) as real <= (j - cut.fadeOutStart) as real;
      DivMonotone((i - cut.fadeOutStart) as real, (j - cut.fadeOutStart) as real, d);
    }
  }

  /** Dividing by a positive real keeps the order. */
  lemma DivMonotone(a: real, b: real, d: real)
    requires a <= b && d > 0.0
    ensures a / d <= b / d
  {
  }

  /** The bytes `writeSample` stores for sample i of the note: the left
      sample, then for stereo the right one, both scaled by the multiplier. */
  function FrameBytes(left: seq<int>, right: Option<seq<int>>, start: int, cut: Cut, i: int): (bs: seq<byte>)
    requires SameLength(left, right) && 0 <= start && 0 <= i && start + i < |left|
    ensures |bs| == FrameSize(right)
  {
    var v := Volume(i, cut);
    Le24Bytes(Scale(left[start + i], v)) + (if right.Some? then Le24Bytes(Scale(right.value[start + i], v)) else [])
  }

  /** The frame that offset d past the header falls in. */
  function FrameOf(right: Option<seq<int>>, d: int): int {
    if right.None? then d / 3 else d / 6
  }

  /** The byte within its frame that offset d past the header is. */
  function ByteOf(right: Option<seq<int>>, d: int): int {
    if right.None? then d % 3 else d % 6
  }

  /** Byte o of frame i is at offset i * numChannels * 3 + o. */
  lemma FrameIndex(right: Option<seq<int>>, d: int, i: int, o: int)
    requires 0 <= i && 0 <= o < FrameSize(right) && d == FrameOffset(right, i) + o
    ensures FrameOf(right, d) == i && ByteOf(right, d) == o
  {
  }

  /** Every offset within n frames belongs to one of them. */
  lemma FrameBound(right: Option<seq<int>>, d: int, n: int)
    requires 0 <= d < FrameOffset(right, n)
    ensures 0 <= FrameOf(right, d) < n && 0 <= ByteOf(right, d) < FrameSize(right)
  {
  }

  /** The header part of the output: wav's first headerSize bytes, with byte
      22 (the channel count) set to numChannels when it lies in the header. */
  function HeaderCopy(wav: seq<byte>, headerSize: int, numChannels: int): (bs: seq<byte>)
    requires 0 <= headerSize <= |wav| && 0 <= numChannels < 256
    ensures |bs| == headerSize
    ensures forall k :: 0 <= k < headerSize && k != 22 ==> bs[k] == wav[k]
    ensures headerSize > 22 ==> bs[22] as int == numChannels
  {
    if headerSize > 22 then wav[..headerSize][22 := numChannels as byte] else wav[..headerSize]
  }

  /** The first n frames of the note. */
  function NoteFrames(left: seq<int>, right: Option<seq<int>>, start: int, cut: Cut, n: int): (frames: seq<seq<byte>>)
    requires SameLength(left, right) && 0 <= start && 0 <= n && (n == 0 || start + n <= |left|)
    ensures |frames| == n && Framed(frames, right)
    ensures forall j :: 0 <= j < n ==> frames[j] == FrameBytes(left, right, start, cut, j)
  {
    seq(n, j requires 0 <= j < n => FrameBytes(left, right, start, cut, j))
  }

  /** One more sample appends one more frame. */
  lemma NoteFramesGrow(left: seq<int>, right: Option<seq<int>>, start: int, cut: Cut, n: int)
    requires SameLength(left, right) && 0 <= start && 0 <= n && start + n < |left|
    ensures NoteFrames(left, right, start, cut, n + 1)
         == NoteFrames(left, right, start, cut, n) + [FrameBytes(left, right, start, cut, n)]
  {
  }

  /** Every frame takes FrameSize bytes. */
  predicate Framed(frames: seq<seq<byte>>, right: Option<seq<int>>) {
    forall j :: 0 <= j < |frames| ==> |frames[j]| == FrameSize(right)
  }

  /** Byte k of a header followed by frames laid end to end. */
  function LayoutByte(header: seq<byte>, frames: seq<seq<byte>>, right: Option<seq<int>>, k: int): byte
    requires Framed(frames, right) && 0 <= k < |header| + FrameOffset(right, |frames|)
  {
    if k < |header| then header[k]
    else
      var d := k - |header|;
      FrameBound(right, d, |frames|);
      frames[FrameOf(right, d)][ByteOf(right, d)]
  }

  /** A header followed by frames laid end to end. */
  function Layout(header: seq<byte>, frames: seq<seq<byte>>, right: Option<seq<int>>): (img: seq<byte>)
    requires Framed(frames, right)
    ensures |img| == |header| + FrameOffset(right, |frames|)
  {
    var length := |header| + FrameOffset(right, |frames|);
    seq(length, k requires 0 <= k < length => LayoutByte(header, frames, right, k))
  }

  /** Frame j of a layout starts j * numChannels * 3 bytes after the header. */
  lemma LayoutFrame(header: seq<byte>, frames: seq<seq<byte>>, right: Option<seq<int>>, j: int)
    requires Framed(frames, right) && 0 <= j < |frames|
    ensures var img, p := Layout(header, frames, right), |header| + FrameOffset(right, j);
      && p + FrameSize(right) <= |img|
      && forall k :: p <= k < p + FrameSize(right) ==> img[k] == frames[j][k - p]
  {
    var img, p := Layout(header, frames, right), |header| + FrameOffset(right, j);
    forall k | p <= k < p + FrameSize(right)
      ensures img[k] == frames[j][k - p]
    {
      FrameIndex(right, k - |header|, j, k - p);
    }
  }

  /** Appending a frame keeps the bytes before it and puts its own after them. */
  lemma LayoutAppend(header: seq<byte>, frames: seq<seq<byte>>, right: Option<seq<int>>, frame: seq<byte>, k: int)
    requires Framed(frames, right) && |frame| == FrameSize(right)
    requires 0 <= k < |header| + FrameOffset(right, |frames| + 1)
    ensures Framed(frames + [frame], right)
    ensures k < |header| + FrameOffset(right, |frames|) ==>
      LayoutByte(header, frames + [frame], right, k) == LayoutByte(header, frames, right, k)
    ensures k >= |header| + FrameOffset(right, |frames|) ==>
      LayoutByte(header, frames + [frame], right, k) == frame[k - |header| - FrameOffset(right, |frames|)]
  {
    var grown := frames + [frame];
    assert forall j :: 0 <= j < |frames| ==> grown[j] == frames[j];
    var d := k - |header|;
    if k >= |header| + FrameOffset(right, |frames|) {
      FrameIndex(right, d, |frames|, d - FrameOffset(right, |frames|));
    }
  }

  /** The sample loop's step on values: the bytes below the new frame kept and
      the new frame's bytes after them extend the layout by that frame. */
  lemma NextFrame(before: seq<byte>, after: seq<byte>, header: seq<byte>, frames: seq<seq<byte>>,
                  right: Option<seq<int>>, frame: seq<byte>)
    requires Framed(frames, right) && |frame| == FrameSize(right)
    requires |before| == |after| && |header| + FrameOffset(right, |frames| + 1) <= |after|
    requires forall k :: 0 <= k < |header| + FrameOffset(right, |frames|) ==>
      before[k] == LayoutByte(header, frames, right, k)
    requires forall k :: 0 <= k < |header| + FrameOffset(right, |frames|) ==> after[k] == before[k]
    requires forall k :: |header| + FrameOffset(right, |frames|) <= k < |header| + FrameOffset(right, |frames| + 1) ==>
      after[k] == frame[k - |header| - FrameOffset(right, |frames|)]
    ensures Framed(frames + [frame], right)
    ensures forall k :: 0 <= k < |header| + FrameOffset(right, |frames| + 1) ==>
      after[k] == LayoutByte(header, frames + [frame], right, k)
  {
    LayoutAppend(header, frames, right, frame, 0);
    forall k | 0 <= k < |header| + FrameOffset(right, |frames| + 1)
      ensures after[k] == LayoutByte(header, frames + [frame], right, k)
    {
      LayoutAppend(header, frames, right, frame, k);
    }
  }

  /** The output buffer of the note whose first sample is start and whose
      cut is cut; None when building it would throw: the header copy reading
      past wav, the write of byte 22 past a short buffer, or a sample read
      past the end of the channels. */
  function NoteImage(wav: seq<byte>, left: seq<int>, right: Option<seq<int>>, headerSize: int, start: int, cut: Cut)
    : (r: Option<seq<byte>>)
    requires SameLength(left, right) && 0 <= headerSize && 0 <= start && 0 <= cut.samplesToCopy
    ensures r.None? <==>
      headerSize > |wav| || headerSize + FrameOffset(right, cut.samplesToCopy) <= 22 || start + cut.samplesToCopy > |left|
    ensures r.Some? ==> |r.value| == headerSize + FrameOffset(right, cut.samplesToCopy)
    ensures r.Some? ==> forall k :: 0 <= k < headerSize && k != 22 ==> r.value[k] == wav[k]
    ensures r.Some? && headerSize > 22 ==> r.value[22] as int == NumChannels(right)
  {
    var n := cut.samplesToCopy;
    if headerSize > |wav| || headerSize + FrameOffset(right, n) <= 22 || start + n > |left| then
      None
    else
      Some(Layout(HeaderCopy(wav, headerSize, NumChannels(right)), NoteFrames(left, right, start, cut, n), right))
  }

  /** Sample i of the note is written at headerSize + i * numChannels * 3,
      scaled by its multiplier, least significant byte first, with the right
      sample three bytes later. */
  lemma ImageSample(wav: seq<byte>, left: seq<int>, right: Option<seq<int>>, headerSize: int, start: int, cut: Cut, i: int)
    requires SameLength(left, right) && 0 <= headerSize && 0 <= start && 0 <= i < cut.samplesToCopy
    requires NoteImage(wav, left, right, headerSize, start, cut).Some?
    ensures var img, p := NoteImage(wav, left, right, headerSize, start, cut).value, headerSize + FrameOffset(right, i);
      && 0 <= p && p + FrameSize(right) <= |img|
      && (forall k :: p <= k < p + 3 ==> img[k] == Le24Bytes(Scale(left[start + i], Volume(i, cut)))[k - p])
      && (right.Some? ==>
            forall k :: p + 3 <= k < p + 6 ==> img[k] == Le24Bytes(Scale(right.value[start + i], Volume(i, cut)))[k - p - 3])
  {
    var header := HeaderCopy(wav, headerSize, NumChannels(right));
    LayoutFrame(header, NoteFrames(left, right, start, cut, cut.samplesToCopy), right, i);
  }

  /** Up to the last audible sample the note keeps its samples exactly:
      decoding the output there gives back every 24-bit input sample. */
  lemma ImageRoundTrip(wav: seq<byte>, left: seq<int>, right: Option<seq<int>>, headerSize: int, start: int, cut: Cut, i: int)
    requires SameLength(left, right) && 0 <= headerSize && 0 <= start && 0 <= i < cut.samplesToCopy
    requires i <= cut.fadeOutStart
    requires NoteImage(wav, left, right, headerSize, start, cut).Some?
    requires InSampleRange(left[start + i]) && (right.Some? ==> InSampleRange(right.value[start + i]))
    ensures var img, p := NoteImage(wav, left, right, headerSize, start, cut).value, headerSize + FrameOffset(right, i);
      && 0 <= p && p + FrameSize(right) <= |img|
      && SampleValue(img, p) == left[start + i]
      && (right.Some? ==> SampleValue(img, p + 3) == right.value[start + i])
  {
    LeftRoundTrip(wav, left, right, headerSize, start, cut, i);
    if right.Some? {
      RightRoundTrip(wav, left, right, headerSize, start, cut, i);
    }
  }

  /** The left half of ImageRoundTrip. */
  lemma LeftRoundTrip(wav: seq<byte>, left: seq<int>, right: Option<seq<int>>, headerSize: int, start: int, cut: Cut, i: int)
    requires SameLength(left, right) && 0 <= headerSize && 0 <= start && 0 <= i < cut.samplesToCopy
    requires i <= cut.fadeOutStart
    requires NoteImage(wav, left, right, headerSize, start, cut).Some?
    requires InSampleRange(left[start + i])
    ensures var img, p := NoteImage(wav, left, right, headerSize, start, cut).value, headerSize + FrameOffset(right, i);
      && 0 <= p && p + FrameSize(right) <= |img|
      && SampleValue(img, p) == left[start + i]
  {
    var img, p := NoteImage(wav, left, right, headerSize, start, cut).value, headerSize + FrameOffset(right, i);
    ImageSample(wav, left, right, headerSize, start, cut, i);
    DecodeUnscaled(img, p, left[start + i], Volume(i, cut));
  }

  /** The right half of ImageRoundTrip, for stereo. */
  lemma RightRoundTrip(wav: seq<byte>, left: seq<int>, right: Option<seq<int>>, headerSize: int, start: int, cut: Cut, i: int)
    requires SameLength(left, right) && 0 <= headerSize && 0 <= start && 0 <= i < cut.samplesToCopy
    requires i <= cut.fadeOutStart && right.Some?
    requires NoteImage(wav, left, right, headerSize, start, cut).Some?
    requires InSampleRange(right.value[start + i])
    ensures var img, p := NoteImage(wav, left, right, headerSize, start, cut).value, headerSize + FrameOffset(right, i);
      && 0 <= p && p + 6 <= |img|
      && SampleValue(img, p + 3) == right.value[start + i]
  {
    var img, p := NoteImage(wav, left, right, headerSize, start, cut).value, headerSize + FrameOffset(right, i);
    ImageSample(wav, left, right, headerSize, start, cut, i);
    DecodeUnscaled(img, p + 3, right.value[start + i], Volume(i, cut));
  }

  /** A sample written with multiplier 1 is read back unchanged. */
  lemma DecodeUnscaled(data: seq<byte>, pos: int, v: int, volume: real)
    requires 0 <= pos && pos + 3 <= |data| && volume == 1.0 && InSampleRange(v)
    requires forall k :: pos <= k < pos + 3 ==> data[k] == Le24Bytes(Scale(v, volume))[k - pos]
    ensures SampleValue(data, pos) == v
  {
    assert Scale(v, volume) == v;
    SameBytes(data, pos, Le24Bytes(v));
    DecodeEncode(v);
  }

  /** A sample is decoded from its own three bytes only. */
  lemma SameBytes(data: seq<byte>, pos: int, bs: seq<byte>)
    requires 0 <= pos && pos + 3 <= |data| && |bs| == 3
    requires forall k :: pos <= k < pos + 3 ==> data[k] == bs[k - pos]
    ensures SampleValue(data, pos) == SampleValue(bs, 0)
  {
    assert data[pos] == bs[0] && data[pos + 1] == bs[1] && data[pos + 2] == bs[2];
  }

  /** One pass of the sample loop: sample i of the note, scaled by its
      multiplier, written at pos, and for stereo the right sample after it. */
  method WriteFrame(output: array<byte>, left: array<int>, right: array?<int>, start: int, cut: Cut, i: int, pos: int)
    requires right != null ==> right.Length == left.Length
    requires 0 <= start && 0 <= i && start + i < left.Length
    requires 0 <= pos && pos + FrameSize(Channel(right)) <= output.Length
    modifies output
    ensures forall k :: 0 <= k < pos ==> output[k] == old(output[k])
    ensures forall k :: pos <= k < pos + FrameSize(Channel(right)) ==>
      output[k] == FrameBytes(left[..], Channel(right), start, cut, i)[k - pos]
    ensures forall k :: pos + FrameSize(Channel(right)) <= k < output.Length ==> output[k] == old(output[k])
  {
    var bytesPerSample := 3;
    var volumeMultiplier := Volume(i, cut);
    WriteSample(left[start + i], output, bytesPerSample, pos, volumeMultiplier);
    ghost var mid := output[..];
    if right != null {
      WriteSample(right[start + i], output, bytesPerSample, pos + bytesPerSample, volumeMultiplier);
      assert forall k :: 0 <= k < pos + 3 ==> output[k] == mid[k];
      assert forall k :: pos + 6 <= k < output.Length ==> output[k] == mid[k];
    }
  }

  /** One pass of the sample loop, stated against the output: before it the
      header and frames 0 .. i - 1 are in place, after it frame i is too. */
  method WriteNoteFrame(output: array<byte>, wav: seq<byte>, left: array<int>, right: array?<int>,
                        headerSize: int, start: int, cut: Cut, i: int)
    requires right != null ==> right.Length == left.Length
    requires 0 <= headerSize <= |wav| && 0 <= start && 0 <= i && start + i < left.Length
    requires headerSize + FrameOffset(Channel(right), i + 1) <= output.Length
    requires forall k :: 0 <= k < headerSize + FrameOffset(Channel(right), i) ==>
      output[k] == LayoutByte(HeaderCopy(wav, headerSize, NumChannels(Channel(right))),
                              NoteFrames(left[..], Channel(right), start, cut, i), Channel(right), k)
    modifies output
    ensures forall k :: 0 <= k < headerSize + FrameOffset(Channel(right), i + 1) ==>
      output[k] == LayoutByte(HeaderCopy(wav, headerSize, NumChannels(Channel(right))),
                              NoteFrames(left[..], Channel(right), start, cut, i + 1), Channel(right), k)
    ensures forall k :: headerSize + FrameOffset(Channel(right), i + 1) <= k < output.Length ==>
      output[k] == old(output[k])
  {
    ghost var ls, ch := left[..], Channel(right);
    var numChannels := if right == null then 1 else 2;
    var bytesPerSample := 3;
    Offsets(ch, numChannels, i);
    var pos := headerSize + i * numChannels * bytesPerSample;
    ghost var before := output[..];
    WriteFrame(output, left, right, start, cut, i, pos);
    assert left[..] == ls;
    assert Channel(right) == ch;
    NextFrame(before, output[..], HeaderCopy(wav, headerSize, NumChannels(ch)), NoteFrames(ls, ch, start, cut, i),
              ch, FrameBytes(ls, ch, start, cut, i));
    NoteFramesGrow(ls, ch, start, cut, i);
  }

  /** Building the output of one note, as `cutAndSave` does between its
      allocation and `File.WriteAllBytes`. */
  method EncodeNote(wav: seq<byte>, left: array<int>, right: array?<int>, headerSize: int, start: int, cut: Cut)
    returns (r: Option<seq<byte>>)
    requires right != null ==> right.Length == left.Length
    requires 0 <= headerSize && 0 <= start && 0 < cut.samplesToCopy
    requires headerSize + 6 * cut.samplesToCopy <= MaxByteArrayLength
    ensures r == NoteImage(wav, left[..], Channel(right), headerSize, start, cut)
  {
    var numChannels := if right == null then 1 else 2;
    var bytesPerSample := 3;
    Offsets(Channel(right), numChannels, cut.samplesToCopy);
    var output := new byte[headerSize + cut.samplesToCopy * numChannels * bytesPerSample](_ => 0);

    // Copy the header that was read.
    var i := 0;
    while i < headerSize
      invariant 0 <= i <= headerSize && i <= |wav|
      invariant forall k :: 0 <= k < i ==> output[k] == wav[k]
    {
      if i >= |wav| {
        return None;
      }
      output[i] := wav[i];
      i := i + 1;
    }
    if output.Length <= 22 {
      return None;
    }
    output[22] := numChannels as byte;
    ghost var header := HeaderCopy(wav, headerSize, numChannels);

    // Copy the note's samples.
    i := 0;
    while i < cut.samplesToCopy
      invariant 0 <= i <= cut.samplesToCopy
      invariant i == 0 || start + i <= left.Length
      invariant forall k :: 0 <= k < headerSize + FrameOffset(Channel(right), i) ==>
        output[k] == LayoutByte(header, NoteFrames(left[..], Channel(right), start, cut, i), Channel(right), k)
    {
      if start + i >= left.Length {
        return None;
      }
      WriteNoteFrame(output, wav, left, right, headerSize, start, cut, i);
      i := i + 1;
    }
    ghost var img := NoteImage(wav, left[..], Channel(right), headerSize, start, cut).value;
    assert output[..] == img;
    return Some(output[..]);
  }
}
