# WavSplitter core in Dafny

WavSplitter reads one recording of an instrument played note by note, one
note every eight seconds. It cuts the recording into one WAV file per note.
Every eight-second window is searched backwards for its last audible sample.
A window with one is written out up to that sample plus a one-millisecond
linear fade-out. The file is named after the window's number and the pitch
that window is expected to hold.

This project models the computing core of `Program.cs`:

- `readSample` and `writeSample`, the 24-bit little-endian sample codec
  (`sample_codec.dfy`);
- `openWav`, the header checks, the subchunk walk to `data` and the decoding
  of the interleaved frames into a left and, for stereo, a right sample array
  (`wav_decoder.dfy`);
- `cutAndSave`, split by concern:
  - the backward silence scan of one window (`segmenter.dfy`);
  - the output buffer of one note: the header copy with the channel count
    patched, and the samples scaled by the fade (`encoder.dfy`);
  - the file name of a note: two-digit window number and pitch table
    (`note_namer.dfy`);
  - the window loop with its two counters (`splitter.dfy`).

`util.dfy` holds the byte type, `Option`/`Result`, and C#'s 32-bit `int`
wrap-around and truncating division.

The methods keep the source's form: loops over arrays, and `modifies` where
the source writes into a buffer. Each method is proved against a function
stating the same result on values, for example:

- `ScanWindow` against `ScanOutcome`;
- `EncodeNote` against `NoteImage`;
- `CutAndSave` against `Split`.

The properties are proved as lemmas about those functions.

Every place where C# would throw is an explicit error variant. This covers
`IndexOutOfRangeException` from reading past an array and the
`OverflowException` of a negative array size. `quitWithError` also becomes an
error variant. The one subchunk walk that never ends in C# (coming back to a
header it has already visited) is reported as `ScanCycles`. A lemma proves
that the source's loop really never exits in that case.

Two facts about the code shape the model:

- The pitch table has the 99 entries its literal lists: A1, A1S and B1,
  then C to B for octaves 2 to 9.
- A window whose scan or fade-out reads past the samples crashes the whole
  run with an index error. No per-note error is raised for it.

## Model

| member | source | states |
|---|---|---|
| SampleCodec.SampleValue | Program.cs:44-61 | the decoded sample lies in -2^23 .. 2^23 - 1 and is negative exactly when bit 7 of the most significant byte (pos + 2) is set |
| SampleCodec.ReadSample | Program.cs:44-61 | the shift-and-or assembly with the sign fill of the top byte equals the positional signed value of the three bytes |
| SampleCodec.Le24Bytes | Program.cs:74-77 | the three bytes stored are the low 24 bits of the value's two's complement, least significant first |
| SampleCodec.Scale | Program.cs:73 | a multiplier of 1 leaves the value unchanged; a multiplier in [0, 1] keeps the sign and never increases the magnitude |
| SampleCodec.WriteSample | Program.cs:64-81 | for width 3 the target equals the old bytes before pos, then the three bytes of the scaled value, then the old bytes after; for any other width the target is unchanged |
| SampleCodec.DecodeEncode | Program.cs:44-81 | reading back the bytes written for any 24-bit value gives that value, both extremes included |
| SampleCodec.EncodeDecode | Program.cs:44-81 | writing a decoded sample reproduces the three bytes it was read from |
| SampleCodec.WriteThenRead | Program.cs:44-81 | writeSample with multiplier 1 followed by readSample returns the value, and every other byte of the target is unchanged |
| WavDecoder.ReadSampleRate | Program.cs:105 | the sample rate is the little-endian word at bytes 24 .. 27, wrapped to a signed 32-bit int |
| WavDecoder.NextChunk | Program.cs:124-126 | the next subchunk header lies 8 + the chunk-size field bytes past the current one, wrapped once to a 32-bit int; without overflow it is exactly that sum |
| WavDecoder.SkipChunk | Program.cs:124-126 | one pass of the scan's body moves from header p to p + 8 + the chunk-size field at p + 4, wrapped once to a 32-bit int, and to exactly that sum when it fits |
| WavDecoder.ChunkStops | Program.cs:122-127 | the walk stops at a header exactly when its tag is `data` or the header lies outside the buffer, and steps on from it exactly otherwise |
| WavDecoder.CycleNeverEnds | Program.cs:122-127 | once the walk comes back to a header it has left, it never stops |
| WavDecoder.OutcomesExclusive | Program.cs:122-127 | running off the buffer, reaching `data` and walking forever exclude one another, and the `data` header reached is unique |
| WavDecoder.OutcomesExhaustive | Program.cs:122-127 | every walk reaches `data`, runs off the buffer or walks forever |
| WavDecoder.ScanChunks | Program.cs:118-127 | success returns the `data` header the walk reaches; failure is an out-of-range read where the walk runs off the buffer, or a cycle where it never ends |
| WavDecoder.FillInBounds | Program.cs:132-147 | with at least one channel, a frame the fill loop's guard admits is one the sample array has room for |
| WavDecoder.AllFilled | Program.cs:132-145 | for mono and stereo the guard admits every frame the arrays have room for |
| WavDecoder.FillFrames | Program.cs:143-156 | the loop fails exactly when there are no channels and the data starts inside the buffer; otherwise left[j] is frame j's first sample (0 for frames never reached) and right[j] its second |
| WavDecoder.LoadSamples | Program.cs:130-156 | a negative sample count and the zero-channel overrun are its only errors, each exactly in its case; otherwise arrays of (length - headerSize) / 3 samples, halved for stereo, hold the decoded frames |
| WavDecoder.OpenWav | Program.cs:99-157 | each outcome holds exactly when its condition on the input does: short header, big-endian, width other than 3, walk off the buffer, walk cycle, negative count, zero-channel overrun; on success channels = byte 22, bytesPerSample = 3, the wrapped sample rate, headerSize 8 past the `data` tag, and the samples loaded |
| Segmenter.LastAudible | Program.cs:182-193 | the result is the largest i in 1 .. n whose sample is audible, or 0 when none is |
| Segmenter.ScanOutcome | Program.cs:178-193 | no cut exactly when the first read, `left[start + window]`, is past the end; otherwise samplesToCopy > 0 exactly when a sample in 1 .. window is audible (signed comparison with 8000 on either channel), then fadeOutStart is the last audible one and samplesToCopy = fadeOutStart + fade; a silent window gives 0, 0 |
| Segmenter.ScanWindow | Program.cs:176-193 | the backward loop with its break computes ScanOutcome |
| Encoder.NumChannels | Program.cs:170 | 2 exactly when there is a right channel, otherwise 1 |
| Encoder.Offsets | Program.cs:213-215 | `i * numChannels * bytesPerSample` is the offset of frame i |
| Encoder.Volume | Program.cs:210-212 | the multiplier is 1 up to fadeOutStart and strictly between 0 and 1 within the fade-out |
| Encoder.VolumeNonIncreasing | Program.cs:210-212 | along the note the multiplier never increases |
| Encoder.FrameBytes | Program.cs:213-215 | a frame takes three bytes per channel |
| Encoder.HeaderCopy | Program.cs:201-204 | the first headerSize bytes of the input with byte 22 replaced by the channel count, every other byte unchanged |
| Encoder.NoteImage | Program.cs:198-216 | no buffer exactly when the header copy reads past the input, the buffer is too short for byte 22, or a sample read (the fade-out included) is past the channels; otherwise its length is headerSize + samplesToCopy * numChannels * 3, its header bytes other than 22 are the input's, byte 22 is numChannels |
| Encoder.ImageSample | Program.cs:207-216 | sample i of the note sits at headerSize + i * numChannels * 3 as the three bytes of the sample scaled by Volume(i), with the right sample three bytes later |
| Encoder.ImageRoundTrip | Program.cs:207-216 | up to fadeOutStart, decoding the output gives back the input samples of both channels |
| Encoder.WriteFrame | Program.cs:208-216 | one pass of the sample loop writes the frame bytes of sample i at its offset and leaves every byte before and after that frame unchanged |
| Encoder.WriteNoteFrame | Program.cs:208-216 | if the header and frames 0 .. i - 1 are in place before the pass, frames 0 .. i are after it, and no byte past frame i changes |
| Encoder.EncodeNote | Program.cs:198-216 | the allocation, header copy, channel patch and sample loop compute NoteImage, failing exactly where it does |
| NoteNamer.TwoDigits | Program.cs:233 | `ToString("00")` below 100: two decimal digits whose value is n |
| NoteNamer.Suffix | Program.cs:219-233 | a suffix exists exactly for counters below 99, the table's size; it is `_-_`, then counter + 1 in two digits, `_`, then the counter-th pitch |
| NoteNamer.NoteFileName | Program.cs:234 | folder, prefix, suffix and `.wav`, in that order |
| NoteNamer.NameNumber | Program.cs:219-234 | the two digits after folder, prefix and `_-_` in a note's file name read back as counter + 1 |
| NoteNamer.NamesDistinct | Program.cs:219-234 | different windows get different file names |
| Splitter.WindowStepFacts | Program.cs:176-236 | per window: the scan crash exactly at the last window; a skip exactly for a window with no audible sample; a build crash exactly when the note reads past the samples or the buffer is too short; a naming crash exactly past the table; an export is named after its counter and holds NoteImage |
| Splitter.HandleWindow | Program.cs:178-236 | one pass of the loop body computes the window's step |
| Splitter.WindowLoop | Program.cs:173-241 | the while loop computes the run of the window steps from the first window |
| Splitter.CutAndSave | Program.cs:160-244 | the whole of cutAndSave: window 8 * sampleRate, threshold 8000, the given fade, computing Split of its input |
| Splitter.RunCounts | Program.cs:174-175 | notesExported counts the files written and never exceeds noteCounter |
| Splitter.RunWindowCount | Program.cs:176 | a run that finishes has counted floor(length / window) windows |
| Splitter.RunScanCrash | Program.cs:176-186 | if only the window ending at the end can crash in the scan, a run crashes there only when length is a nonzero multiple of the window |
| Splitter.RunFullWindowsCrash | Program.cs:176-186 | if that window always crashes and length is such a multiple, the run does not finish |
| Splitter.RunSilent | Program.cs:195-196 | a run whose windows are all skipped or crash in the scan writes nothing |
| Splitter.RunNumbered | Program.cs:219-240 | if window c's file carries number c + 1, the files of a run carry strictly increasing numbers |
| Splitter.ScanCrashes | Program.cs:176-186 | only the window ending exactly at the end of the samples crashes in the scan, and that one always does |
| Splitter.SilentSteps | Program.cs:182-196 | without an audible sample every window is skipped or crashes in the scan |
| Splitter.NumberedSteps | Program.cs:219-234 | the file of window c carries number c + 1 |
| Splitter.RunTotals | Program.cs:173-243 | in the whole run notesExported is the number of files, at most noteCounter, which for a run that finishes is floor(length / window) |
| Splitter.LastWindowCrash | Program.cs:176-186 | the run crashes in the scan only when the sample count is a nonzero multiple of the window, and every such run crashes |
| Splitter.SilentRun | Program.cs:176-241 | a recording without an audible sample yields no file |
| Splitter.DistinctFileNames | Program.cs:219-240 | no two notes of a run are written to the same file |

## Left out

- `Main`, `deletePreviousNotes`, `consoleWrite` and all file-system access
  are not modelled. The input file arrives as a byte sequence. The files
  `File.WriteAllBytes` would write are returned, in order, as name and
  content. The output folder and `_noteNamePrefix` are parameters.
- `quitWithError` ends the process in C#; here it is an error variant of
  `OpenWav`'s result.
- The single-precision float arithmetic is not modelled:
  - The window `(int)Math.Round(8f * sampleRate)` is taken as
    8 * sampleRate. This is exact in float for every rate up to 2^24.
  - The fade length `(int)Math.Round(0.001f * sampleRate)` is a parameter.
  - The fade multiplier is an exact real, and `(int)(value * volumeMultiplier)`
    is the exact product truncated toward zero. Float rounding of that
    product is not modelled.
- CutAndSave: requires 0 < sampleRate <= 2^24.
  - For a rate of 0 the source's loop never advances and does not terminate.
  - For a negative rate it walks `currentNoteStart` downwards until the
    32-bit addition wraps.
  - Above 2^24 the float window is no longer 8 * sampleRate.
- CutAndSave: requires every note buffer,
  headerSize + 6 * (window + fade) bytes, to fit in a .NET byte array.
  Neither the allocation failure nor the 32-bit overflow of that size is
  modelled.
- OpenWav: requires the file to fit in a .NET byte array, as
  `File.ReadAllBytes` guarantees.
- The `int` counters and positions of `cutAndSave` are unbounded integers.
  For the arrays `openWav` returns (fewer than 2^31 / 3 samples), with the
  window bounded as above, the sums do not overflow.
- The `bytesPerSample` parameter of `cutAndSave` (and the unused one of
  `readSample`) is fixed at 3, the only width `openWav` accepts. So the
  audible threshold `(int)Math.Pow(20, bytesPerSample)` is the constant
  8000.
- NoteNamer.TwoDigits: models `ToString("00")` only below 100. The counter
  printed never exceeds 99, because the pitch table runs out first.
- ScanChunks: where the source's subchunk loop never terminates, the model
  stops at the first revisited header and reports ScanCycles. CycleNeverEnds
  proves that the source's loop would not exit.
