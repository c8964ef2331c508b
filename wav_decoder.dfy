/** `openWav`: validates the RIFF/WAVE header, walks the subchunks from
    offset 12 to the `data` tag and decodes the interleaved 24-bit frames
    into a left and, for stereo, a right sample array. */
module WavDecoder {
  import opened Util
  import opened SampleCodec

  /** The part of `openWav` at which C# would throw IndexOutOfRangeException. */
  datatype Stage = ReadingHeader | ScanningChunks | FillingSamples

  datatype WavError =
    | IndexOutOfRange(stage: Stage)
      // `quitWithError`: byte 3 is not 'F' (a RIFX, big-endian, container)
    | BigEndian
      // `quitWithError`: bits per sample / 8 is not 3
    | UnsupportedSampleWidth(bytesPerSample: int)
      // `new int[samples]` with samples < 0 throws OverflowException
    | NegativeSampleCount
      // the subchunk walk came back to a header it had visited: the source's loop never ends
    | ScanCycles

  datatype Header = Header(channels: int, bytesPerSample: int, sampleRate: int, headerSize: int)

  /** What `openWav` hands to `cutAndSave`; right is null for anything but stereo. */
  datatype Wav = Wav(header: Header, left: array<int>, right: array?<int>)

  /** Fixed header bytes `openWav` reads: 3, 22, 24 .. 27 and 34. */
  const FixedHeaderLength: int := 35

  const DataTag: seq<int> := [100, 97, 116, 97]  // "data"

  /** The header passes both checks `openWav` makes before the scan. */
  predicate HeaderAccepted(wav: seq<byte>) {
    |wav| >= FixedHeaderLength && wav[3] as int == 'F' as int && (wav[34] as int) / 8 == 3
  }

  /** `sampleRate = wav[24] | (wav[25] << 8) | (wav[26] << 16) | (wav[27] << 24)`
      in C#'s 32-bit `int`. */
  method ReadSampleRate(wav: seq<byte>) returns (rate: int)
    requires |wav| >= 28
    ensures rate == Wrap32(LeU32(wav, 24))
  {
    var x := RateBits(wav[24] as bv8, wav[25] as bv8, wav[26] as bv8, wav[27] as bv8);
    RateValue(wav);
    WrapWord(x as int);
    rate := ToInt32(x);
  }

  /** The 32 bits `openWav` ors together from bytes 24 .. 27. */
  function RateBits(b0: bv8, b1: bv8, b2: bv8, b3: bv8): bv32 {
    (b0 as bv32) | ((b1 as bv32) << 8) | ((b2 as bv32) << 16) | ((b3 as bv32) << 24)
  }

  lemma RateValue(wav: seq<byte>)
    requires |wav| >= 28
    ensures RateBits(wav[24] as bv8, wav[25] as bv8, wav[26] as bv8, wav[27] as bv8) as int == LeU32(wav, 24)
  {
    RateBitsValue(wav[24] as bv8, wav[25] as bv8, wav[26] as bv8, wav[27] as bv8);
    BitsOfByte(wav[24]);
    BitsOfByte(wav[25]);
    BitsOfByte(wav[26]);
    BitsOfByte(wav[27]);
  }

  lemma RateBitsValue(b0: bv8, b1: bv8, b2: bv8, b3: bv8)
    ensures RateBits(b0, b1, b2, b3) as int
            == b0 as int + 0x100 * (b1 as int) + 0x1_0000 * (b2 as int) + 0x100_0000 * (b3 as int)
  {
    AssembleWord(b0, b1, b2, b3);
    assert RateBits(b0, b1, b2, b3) == (b0 as bv32) | ((b1 as bv32) << 8) | ((b2 as bv32) << 16) | ((b3 as bv32) << 24);
  }

  lemma WrapWord(x: int)
    requires 0 <= x < TwoTo32
    ensures Wrap32(x) == if x <= Int32Max then x else x - TwoTo32
  {
  }

  lemma AssembleWord(b0: bv8, b1: bv8, b2: bv8, b3: bv8)
    ensures ((b0 as bv32) | ((b1 as bv32) << 8) | ((b2 as bv32) << 16) | ((b3 as bv32) << 24)) as int
            == b0 as int + 0x100 * (b1 as int) + 0x1_0000 * (b2 as int) + 0x100_0000 * (b3 as int)
  {
  }

  /** The four bytes at p spell `data`. */
  predicate IsDataTag(wav: seq<byte>, p: int) {
    0 <= p && p + 4 <= |wav|
    && wav[p] as int == DataTag[0] && wav[p + 1] as int == DataTag[1]
    && wav[p + 2] as int == DataTag[2] && wav[p + 3] as int == DataTag[3]
  }

  /** A subchunk header at p that the scan steps over: its tag is not `data`
      and its size field lies inside the buffer. */
  predicate Skippable(wav: seq<byte>, p: int) {
    0 <= p && p + 8 <= |wav| && !IsDataTag(wav, p)
  }

  /** One pass of the scan's loop body: `pos += 4`, the chunk size read as a
      wrapping 32-bit sum, then `pos += 4 + chunkSize`, all in C# `int`. The
      walk steps over the 4-byte tag, the 4-byte size field and the chunk,
      wrapped once; without overflow that is exactly 8 + size bytes on. */
  function NextChunk(wav: seq<byte>, p: int): (r: int)
    requires Skippable(wav, p)
    ensures r == Wrap32(p + 8 + LeU32(wav, p + 4))
    ensures p + 8 + LeU32(wav, p + 4) <= Int32Max ==> r == p + 8 + LeU32(wav, p + 4)
  {
    var pos := p + 4;
    var chunkSize := Wrap32(LeU32(wav, pos));
    WrapInner(4, LeU32(wav, pos));
    WrapInner(pos, 4 + LeU32(wav, pos));
    Wrap32(pos + Wrap32(4 + chunkSize))
  }

  /** The n-th position of a walk from start that applies step to every
      position it reaches; None once a step has failed. */
  function Iterate(step: int -> Option<int>, start: int, n: nat): Option<int> {
    if n == 0 then Some(start)
    else match Iterate(step, start, n - 1)
      case None => None
      case Some(p) => step(p)
  }

  /** The walk reaches its n-th position and cannot step on from it. */
  predicate StopsAt(step: int -> Option<int>, start: int, n: nat) {
    Iterate(step, start, n).Some? && step(Iterate(step, start, n).value).None?
  }

  /** The walk reaches its n-th position and steps on from it. */
  predicate PassesAt(step: int -> Option<int>, start: int, n: nat) {
    Iterate(step, start, n).Some? && step(Iterate(step, start, n).value).Some?
  }

  /** After a stop the walk has no further positions. */
  lemma {:induction false} StaysStopped(step: int -> Option<int>, start: int, n: nat, m: nat)
    requires StopsAt(step, start, n) && n < m
    ensures Iterate(step, start, m).None?
  {
    if m > n + 1 {
      StaysStopped(step, start, n, m - 1);
    }
  }

  /** A walk stops at most once. */
  lemma StopsOnce(step: int -> Option<int>, start: int, n: nat, m: nat)
    requires StopsAt(step, start, n) && StopsAt(step, start, m)
    ensures n == m
  {
    if n < m {
      StaysStopped(step, start, n, m);
    } else if m < n {
      StaysStopped(step, start, m, n);
    }
  }

  /** Every position before a reached one was reached and stepped on from. */
  lemma {:induction false} PrefixPasses(step: int -> Option<int>, start: int, k: nat, n: nat)
    requires Iterate(step, start, n).Some? && k < n
    ensures PassesAt(step, start, k)
  {
    if k < n - 1 {
      PrefixPasses(step, start, k, n - 1);
    }
  }

  /** Once steps k and k + d reach the same position the walk repeats with
      period d from step k on. */
  lemma {:induction false} RepeatShift(step: int -> Option<int>, start: int, k: nat, d: nat, n: nat)
    requires Iterate(step, start, k) == Iterate(step, start, k + d)
    requires k <= n
    ensures Iterate(step, start, n + d) == Iterate(step, start, n)
    decreases n - k
  {
    if n > k {
      RepeatShift(step, start, k, d, n - 1);
      assert n + d - 1 == n - 1 + d;
    }
  }

  /** A walk that comes back to a position it has reached, and steps on from
      it, steps on from every position for ever. */
  lemma {:induction false} CyclePasses(step: int -> Option<int>, start: int, k: nat, j: nat, n: nat)
    requires k < j && Iterate(step, start, k) == Iterate(step, start, j)
    requires PassesAt(step, start, j)
    ensures PassesAt(step, start, n)
    decreases n
  {
    if n < j {
      PrefixPasses(step, start, n, j);
    } else if n > j {
      var d: nat := j - k;
      var m: nat := n - d;
      assert k + d == j && m + d == n;
      RepeatShift(step, start, k, d, m);
      CyclePasses(step, start, k, j, m);
    }
  }

  /** A step that is not stepped on from has a stop at or before it. */
  lemma {:induction false} FirstStop(step: int -> Option<int>, start: int, n: nat) returns (m: nat)
    requires !PassesAt(step, start, n)
    ensures m <= n && StopsAt(step, start, m)
  {
    if Iterate(step, start, n).Some? {
      m := n;
    } else {
      m := FirstStop(step, start, n - 1);
    }
  }

  /** The scan's step from the header at p. */
  function Advance(wav: seq<byte>, p: int): (r: Option<int>)
    ensures r.Some? <==> Skippable(wav, p)
  {
    if Skippable(wav, p) then Some(NextChunk(wav, p)) else None
  }

  function ChunkSteps(wav: seq<byte>): int -> Option<int> {
    p => Advance(wav, p)
  }

  /** The position of the n-th subchunk header the scan looks at, starting at
      12; None once an earlier header was `data` or lay outside the buffer. */
  function ChunkAt(wav: seq<byte>, n: nat): Option<int> {
    Iterate(ChunkSteps(wav), 12, n)
  }

  /** The walk reaches a `data` tag at p. */
  ghost predicate ReachesData(wav: seq<byte>, p: int) {
    exists n: nat :: ChunkAt(wav, n) == Some(p) && IsDataTag(wav, p)
  }

  /** The walk reaches a header whose tag or size field C# would read past the
      end of the buffer (or before its start). */
  ghost predicate RunsOffBuffer(wav: seq<byte>) {
    exists n: nat :: ChunkAt(wav, n).Some? && !IsDataTag(wav, ChunkAt(wav, n).value)
                     && !Skippable(wav, ChunkAt(wav, n).value)
  }

  /** The walk never stops: every header it reaches is stepped over. */
  ghost predicate WalksForever(wav: seq<byte>) {
    forall n: nat :: ChunkAt(wav, n).Some? && Skippable(wav, ChunkAt(wav, n).value)
  }

  /** The scan stops at step n exactly when the header there is `data` or
      lies outside the buffer. */
  lemma ChunkStops(wav: seq<byte>, n: nat)
    ensures StopsAt(ChunkSteps(wav), 12, n) <==> ChunkAt(wav, n).Some? && !Skippable(wav, ChunkAt(wav, n).value)
    ensures PassesAt(ChunkSteps(wav), 12, n) <==> ChunkAt(wav, n).Some? && Skippable(wav, ChunkAt(wav, n).value)
  {
    if ChunkAt(wav, n).Some? {
      assert ChunkSteps(wav)(ChunkAt(wav, n).value) == Advance(wav, ChunkAt(wav, n).value);
    }
  }

  /** One step of the walk from a header it steps over. */
  lemma ChunkStep(wav: seq<byte>, n: nat, p: int)
    requires ChunkAt(wav, n) == Some(p) && Skippable(wav, p)
    ensures ChunkAt(wav, n + 1) == Some(NextChunk(wav, p))
  {
    assert ChunkSteps(wav)(p) == Advance(wav, p);
  }

  /** A revisited header means the source's `while` never exits: every step
      of the walk exists and is stepped over. */
  lemma CycleNeverEnds(wav: seq<byte>, k: nat, j: nat)
    requires k < j
    requires ChunkAt(wav, j).Some? && ChunkAt(wav, k) == ChunkAt(wav, j)
    requires Skippable(wav, ChunkAt(wav, j).value)
    ensures WalksForever(wav)
  {
    ChunkStops(wav, j);
    forall n: nat
      ensures ChunkAt(wav, n).Some? && Skippable(wav, ChunkAt(wav, n).value)
    {
      CyclePasses(ChunkSteps(wav), 12, k, j, n);
      ChunkStops(wav, n);
    }
  }

  /** The three ways the walk can end exclude one another, and the data tag
      it reaches, if any, is unique. */
  lemma OutcomesExclusive(wav: seq<byte>)
    ensures RunsOffBuffer(wav) ==> !WalksForever(wav)
    ensures forall p :: ReachesData(wav, p) ==> !RunsOffBuffer(wav) && !WalksForever(wav)
    ensures forall p, q :: ReachesData(wav, p) && ReachesData(wav, q) ==> p == q
  {
    forall p | ReachesData(wav, p)
      ensures !RunsOffBuffer(wav) && !WalksForever(wav)
    {
      var n: nat :| ChunkAt(wav, n) == Some(p) && IsDataTag(wav, p);
      ChunkStops(wav, n);
      if RunsOffBuffer(wav) {
        var m: nat :| ChunkAt(wav, m).Some? && !IsDataTag(wav, ChunkAt(wav, m).value)
                      && !Skippable(wav, ChunkAt(wav, m).value);
        ChunkStops(wav, m);
        StopsOnce(ChunkSteps(wav), 12, n, m);
      }
      assert !Skippable(wav, ChunkAt(wav, n).value);
    }
    forall p, q | ReachesData(wav, p) && ReachesData(wav, q)
      ensures p == q
    {
      var n: nat :| ChunkAt(wav, n) == Some(p) && IsDataTag(wav, p);
      var m: nat :| ChunkAt(wav, m) == Some(q) && IsDataTag(wav, q);
      ChunkStops(wav, n);
      ChunkStops(wav, m);
      StopsOnce(ChunkSteps(wav), 12, n, m);
    }
  }

  /** Every walk ends in one of the three ways. */
  lemma OutcomesExhaustive(wav: seq<byte>)
    ensures (exists p :: ReachesData(wav, p)) || RunsOffBuffer(wav) || WalksForever(wav)
  {
    if !WalksForever(wav) {
      var n: nat :| !(ChunkAt(wav, n).Some? && Skippable(wav, ChunkAt(wav, n).value));
      ChunkStops(wav, n);
      var m := FirstStop(ChunkSteps(wav), 12, n);
      ChunkStops(wav, m);
      var p := ChunkAt(wav, m).value;
      if IsDataTag(wav, p) {
        assert ReachesData(wav, p);
      } else {
        assert RunsOffBuffer(wav);
      }
    }
  }

  /** The body of the scan's loop: step over the tag, read the chunk size and
      step over the size field and the chunk, in wrapping `int` arithmetic. */
  method SkipChunk(wav: seq<byte>, p: int) returns (pos: int)
    requires Skippable(wav, p)
    ensures pos == Wrap32(p + 8 + LeU32(wav, p + 4))
    ensures p + 8 + LeU32(wav, p + 4) <= Int32Max ==> pos == p + 8 + LeU32(wav, p + 4)
  {
    pos := p + 4;
    var chunkSize := Wrap32(LeU32(wav, pos));
    WrapInner(4, LeU32(wav, pos));
    WrapInner(pos, 4 + LeU32(wav, pos));
    pos := Wrap32(pos + Wrap32(4 + chunkSize));
  }

  /** Every integer in 0 .. n - 1, as a set the scan's visited set stays within. */
  ghost function Below(n: nat): (s: set<int>)
    ensures forall q :: q in s <==> 0 <= q < n
  {
    if n == 0 then {} else Below(n - 1) + {n - 1}
  }

  /** The subchunk walk of `openWav`, from offset 12 to the header whose tag is
      `data`. Where the source would loop forever, coming back to a header it
      has visited, the model stops and reports ScanCycles. */
  method ScanChunks(wav: seq<byte>) returns (r: Result<int, WavError>)
    ensures r.Ok? ==> ReachesData(wav, r.value)
    ensures r.Err? ==> (r.error == IndexOutOfRange(ScanningChunks) && RunsOffBuffer(wav))
                       || (r.error == ScanCycles && WalksForever(wav))
  {
    var pos := 12;
    ghost var steps: nat := 0;
    var visited: set<int> := {};
    ghost var stepOf: map<int, nat> := map[];  // the step at which each visited header was reached
    while !IsDataTag(wav, pos)
      invariant ChunkAt(wav, steps) == Some(pos)
      invariant forall q :: q in visited ==> 0 <= q < |wav|
      invariant forall q :: q in visited ==> q in stepOf && stepOf[q] < steps && ChunkAt(wav, stepOf[q]) == Some(q)
      decreases Below(|wav|) - visited
    {
      if !(0 <= pos && pos + 8 <= |wav|) {
        assert !Skippable(wav, pos);
        return Err(IndexOutOfRange(ScanningChunks));
      }
      if pos in visited {
        CycleNeverEnds(wav, stepOf[pos], steps);
        return Err(ScanCycles);
      }
      ghost var here := pos;
      assert here in Below(|wav|);
      visited := visited + {pos};
      stepOf := stepOf[pos := steps];
      pos := SkipChunk(wav, pos);
      ChunkStep(wav, steps, here);
      steps := steps + 1;
    }
    return Ok(pos);
  }

  /** Where frame j starts: 6 bytes per frame for stereo, otherwise the 3 bytes
      of a left sample (only channels == 2 reads a right sample). */
  function FrameStart(headerSize: int, channels: int, j: int): int {
    if channels == 2 then headerSize + 6 * j else headerSize + 3 * j
  }

  /** The fill loop's guard `pos + channels * bytesPerSample <= wav.Length` at frame j. */
  predicate Filled(wavLength: int, headerSize: int, channels: int, j: int) {
    FrameStart(headerSize, channels, j) + 3 * channels <= wavLength
  }

  /** `samples = (wav.Length - pos) / bytesPerSample`, halved for stereo, in
      C#'s truncating division. */
  function SampleCount(wavLength: int, headerSize: int, channels: int): int {
    var samples := TruncDiv(wavLength - headerSize, 3);
    if channels == 2 then TruncDiv(samples, 2) else samples
  }

  /** The left sample of frame j: decoded when the fill loop reaches the frame,
      otherwise the 0 the new array holds. */
  function LeftSample(wav: seq<byte>, headerSize: int, channels: int, j: int): int
    requires 0 <= headerSize && 1 <= channels && 0 <= j
  {
    if Filled(|wav|, headerSize, channels, j) then SampleValue(wav, FrameStart(headerSize, channels, j)) else 0
  }

  /** With at least one channel the fill loop never indexes past `left`: frame
      j is read only when it is one of the SampleCount frames. */
  lemma FillInBounds(wavLength: int, headerSize: int, channels: int, j: int)
    requires 1 <= channels && 0 <= j
    requires Filled(wavLength, headerSize, channels, j)
    ensures j < SampleCount(wavLength, headerSize, channels)
  {
    var d := wavLength - headerSize;
    var s := TruncDiv(d, 3);
    if channels == 2 {
      assert 6 * j + 6 <= d;
      assert 2 * j + 2 <= s;
    } else {
      assert 3 * j + 3 <= d;
    }
  }

  /** For mono and stereo every frame the arrays have room for is read. */
  lemma AllFilled(wavLength: int, headerSize: int, channels: int, j: int)
    requires channels == 1 || channels == 2
    requires 0 <= j < SampleCount(wavLength, headerSize, channels)
    ensures Filled(wavLength, headerSize, channels, j)
  {
    var d := wavLength - headerSize;
    var s := TruncDiv(d, 3);
    if channels == 2 {
      assert 0 <= s;
      assert 2 * j + 2 <= s;
    }
  }

  /** The frame loop of `openWav`, over arrays it has just allocated. It
      fails (C# throws) exactly when there are no channels and the data starts
      inside the buffer: the guard then never turns false before `left` or the
      buffer runs out. */
  method FillFrames(wav: seq<byte>, headerSize: int, channels: int, left: array<int>, right: array?<int>)
    returns (ok: bool)
    requires |wav| <= MaxByteArrayLength
    requires 0 <= headerSize <= |wav| + 4 && 0 <= channels < 256
    requires left.Length == SampleCount(|wav|, headerSize, channels)
    requires right == null <==> channels != 2
    requires right != null ==> right.Length == left.Length && right != left
    requires forall j :: 0 <= j < left.Length ==> left[j] == 0
    requires right != null ==> forall j :: 0 <= j < right.Length ==> right[j] == 0
    modifies left, right
    ensures ok <==> !(channels == 0 && headerSize <= |wav|)
    ensures ok && channels == 0 ==> left.Length == 0
    ensures ok && channels >= 1 ==>
      forall j :: 0 <= j < left.Length ==> left[j] == LeftSample(wav, headerSize, channels, j)
    ensures ok && right != null ==>
      forall j :: 0 <= j < right.Length ==> right[j] == SampleValue(wav, headerSize + 6 * j + 3)
  {
    var bytesPerSample := 3;
    var pos := headerSize;
    var i := 0;
    while pos + channels * bytesPerSample <= |wav|
      invariant 0 <= i <= left.Length
      invariant pos == FrameStart(headerSize, channels, i)
      invariant channels == 0 && headerSize <= |wav| ==> pos <= |wav|
      invariant forall j :: 0 <= j < i ==> Filled(|wav|, headerSize, channels, j) && FrameStart(headerSize, channels, j) + 3 <= |wav|
      invariant forall j :: 0 <= j < i ==> left[j] == SampleValue(wav, FrameStart(headerSize, channels, j))
      invariant forall j :: i <= j < left.Length ==> left[j] == 0
      invariant right != null ==> forall j :: 0 <= j < i ==> right[j] == SampleValue(wav, headerSize + 6 * j + 3)
      invariant right != null ==> forall j :: i <= j < right.Length ==> right[j] == 0
      decreases |wav| + 3 - pos
    {
      if !(i < left.Length && pos + 3 <= |wav|) {
        if channels != 0 {
          FillInBounds(|wav|, headerSize, channels, i);
        }
        return false;
      }
      var l := ReadSample(wav, pos);
      left[i] := l;
      pos := pos + bytesPerSample;
      if channels == 2 {
        var rs := ReadSample(wav, pos);
        right[i] := rs;
        pos := pos + bytesPerSample;
      }
      i := i + 1;
    }
    forall j | i <= j
      ensures !Filled(|wav|, headerSize, channels, j)
    {
    }
    return true;
  }

  /** The arrays of w hold the samples of wav as `openWav`'s fill loop leaves
      them: SampleCount frames, decoded when the loop reaches them and 0
      otherwise; a distinct right array exactly for stereo. */
  predicate SamplesLoaded(wav: seq<byte>, w: Wav)
    reads w.left, w.right
  {
    var h, left, right := w.header, w.left, w.right;
    && 0 <= h.headerSize
    && left.Length == SampleCount(|wav|, h.headerSize, h.channels) >= 0
    && (right == null <==> h.channels != 2)
    && (right != null ==> right.Length == left.Length && right != left)
    && (h.channels == 0 ==> left.Length == 0)
    && (h.channels >= 1 ==>
          forall j :: 0 <= j < left.Length ==> left[j] == LeftSample(wav, h.headerSize, h.channels, j))
    && (h.channels == 1 || h.channels == 2 ==>
          forall j :: 0 <= j < left.Length ==> Filled(|wav|, h.headerSize, h.channels, j))
    && (h.channels == 1 || h.channels == 2 ==>
          forall j :: 0 <= j < left.Length ==> left[j] == SampleValue(wav, FrameStart(h.headerSize, h.channels, j)))
    && (right != null ==>
          forall j :: 0 <= j < right.Length ==> right[j] == SampleValue(wav, h.headerSize + 6 * j + 3))
  }

  /** The second half of `openWav`: the sample count, the arrays and the fill
      loop, for data starting at header.headerSize. */
  method LoadSamples(wav: seq<byte>, header: Header) returns (r: Result<Wav, WavError>)
    requires |wav| <= MaxByteArrayLength
    requires 0 <= header.headerSize <= |wav| + 4 && 0 <= header.channels < 256
    requires header.bytesPerSample == 3
    ensures r.Err? ==> r.error == NegativeSampleCount || r.error == IndexOutOfRange(FillingSamples)
    ensures r == Err(NegativeSampleCount) <==> SampleCount(|wav|, header.headerSize, header.channels) < 0
    ensures r == Err(IndexOutOfRange(FillingSamples)) <==>
      SampleCount(|wav|, header.headerSize, header.channels) >= 0 && header.channels == 0 && header.headerSize <= |wav|
    ensures r.Ok? ==> r.value.header == header && SamplesLoaded(wav, r.value)
  {
    var channels, bytesPerSample, pos := header.channels, header.bytesPerSample, header.headerSize;
    var samples := TruncDiv(|wav| - pos, bytesPerSample);
    if channels == 2 {
      samples := TruncDiv(samples, 2);
    }
    if samples < 0 {
      return Err(NegativeSampleCount);
    }
    var left := new int[samples](_ => 0);
    var right: array?<int> := null;
    if channels == 2 {
      right := new int[samples](_ => 0);
    }
    var ok := FillFrames(wav, pos, channels, left, right);
    if !ok {
      return Err(IndexOutOfRange(FillingSamples));
    }
    if channels == 1 || channels == 2 {
      forall j | 0 <= j < left.Length
        ensures Filled(|wav|, pos, channels, j)
      {
        AllFilled(|wav|, pos, channels, j);
      }
    }
    r := Ok(Wav(header, left, right));
  }

  /** `openWav`. Every outcome is characterised by the input alone: the
      header checks, the three ends of the subchunk walk, the sample count and
      the frame loop. */
  method OpenWav(wav: seq<byte>) returns (r: Result<Wav, WavError>)
    requires |wav| <= MaxByteArrayLength
    ensures r == Err(IndexOutOfRange(ReadingHeader)) <==> |wav| < FixedHeaderLength
    ensures r == Err(BigEndian) <==> |wav| >= FixedHeaderLength && wav[3] as int != 'F' as int
    ensures r.Err? && r.error.UnsupportedSampleWidth? <==>
      |wav| >= FixedHeaderLength && wav[3] as int == 'F' as int && (wav[34] as int) / 8 != 3
    ensures r.Err? && r.error.UnsupportedSampleWidth? ==> r.error.bytesPerSample == (wav[34] as int) / 8
    ensures r == Err(IndexOutOfRange(ScanningChunks)) <==> HeaderAccepted(wav) && RunsOffBuffer(wav)
    ensures r == Err(ScanCycles) <==> HeaderAccepted(wav) && WalksForever(wav)
    ensures r == Err(NegativeSampleCount) <==>
      HeaderAccepted(wav) && exists p :: ReachesData(wav, p) && SampleCount(|wav|, p + 8, wav[22] as int) < 0
    ensures r == Err(IndexOutOfRange(FillingSamples)) <==>
      HeaderAccepted(wav) && exists p :: ReachesData(wav, p) && wav[22] == 0 && p + 8 <= |wav|
    ensures r.Ok? ==>
      && HeaderAccepted(wav)
      && r.value.header.channels == wav[22] as int
      && r.value.header.bytesPerSample == 3
      && r.value.header.sampleRate == Wrap32(LeU32(wav, 24))
      && ReachesData(wav, r.value.header.headerSize - 8)
      && SamplesLoaded(wav, r.value)
  {
    if |wav| < FixedHeaderLength {
      return Err(IndexOutOfRange(ReadingHeader));
    }
    var channels := wav[22] as int;
    var bytesPerSample := (wav[34] as int) / 8;
    var sampleRate := ReadSampleRate(wav);
    var isLittleEndian := wav[3] as int == 'F' as int;
    if !isLittleEndian {
      return Err(BigEndian);
    }
    if bytesPerSample != 3 {
      return Err(UnsupportedSampleWidth(bytesPerSample));
    }

    OutcomesExclusive(wav);
    var scan := ScanChunks(wav);
    if scan.Err? {
      return Err(scan.error);
    }
    // The sample data starts after the `data` tag and its size field.
    var pos := scan.value + 8;
    ghost var p := scan.value;
    assert p + 8 == pos && ReachesData(wav, pos - 8);
    r := LoadSamples(wav, Header(channels, bytesPerSample, sampleRate, pos));
  }
}
