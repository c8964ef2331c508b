/** The driver of `cutAndSave`: the loop over fixed windows of the decoded
    samples, the export of every window with an audible sample, the names
    given to the exported notes and the counts kept along the way. */
module Splitter {
  import opened Util
  import opened Segmenter
  import opened Encoder
  import opened NoteNamer

  /** Where `cutAndSave` throws before it finishes. */
  datatype CutError =
    | ScanOutOfRange       // the scan reads `left[currentNoteStart + i]` past the end
    | NoteOutOfRange       // building a note reads past wav or past the channels
    | PitchTableExhausted  // `suffixArray[noteCounter]` past the end of the table

  /** One file `File.WriteAllBytes` would write. */
  datatype NoteFile = NoteFile(name: string, data: seq<byte>)

  /** The files written, in order, the two counters and how the loop ended:
      None when it ran to completion. */
  datatype Summary = Summary(files: seq<NoteFile>, notesEncountered: int, notesExported: int, crash: Option<CutError>)

  /** What stays fixed over the loop: the input file, its decoded channels,
      the header size, the window `round(8 * sampleRate)`, the fade-out
      length `round(0.001 * sampleRate)`, the output folder and the name
      prefix. */
  datatype Input = Input(wav: seq<byte>, left: seq<int>, right: Option<seq<int>>, headerSize: int,
                         window: int, fadeLength: int, folder: string, prefix: string)

  predicate ValidInput(input: Input) {
    SameLength(input.left, input.right) && 0 <= input.headerSize && 0 < input.window && 0 <= input.fadeLength
  }

  /** What one window of the loop does: nothing for a window without an
      audible sample, one file for a window with one, or a throw. */
  datatype Step = Skip | Export(file: NoteFile) | Crash(error: CutError)

  /** The window at start, the counter-th one, as `cutAndSave` handles it:
      the backward scan, then where it found an audible sample the note's
      buffer and its name. */
  function WindowStep(input: Input, start: int, counter: int): Step
    requires ValidInput(input) && 0 <= start && 0 <= counter && start + input.window <= |input.left|
  {
    match ScanOutcome(input.left, input.right, start, input.window, input.fadeLength)
    case None => Crash(ScanOutOfRange)
    case Some(cut) =>
      if cut.samplesToCopy <= 0 then Skip
      else
        match NoteImage(input.wav, input.left, input.right, input.headerSize, start, cut)
        case None => Crash(NoteOutOfRange)
        case Some(image) =>
          match Suffix(counter)
          case None => Crash(PitchTableExhausted)
          case Some(suffix) => Export(NoteFile(NoteFileName(input.folder, input.prefix, suffix), image))
  }

  /** One window crashes in the scan exactly when it ends at the end of the
      samples; otherwise it is skipped exactly when none of its samples
      1 .. window is audible, it crashes building the note exactly when the
      note (its fade-out included) reads past the samples or the buffer is
      too short for byte 22, and it crashes naming the note exactly when the
      pitch table has no entry for it; a file it writes is named after its
      counter and holds the note's buffer. */
  lemma WindowStepFacts(input: Input, start: int, counter: int)
    requires ValidInput(input) && 0 <= start && 0 <= counter && start + input.window <= |input.left|
    ensures var r := WindowStep(input, start, counter);
      && (r == Crash(ScanOutOfRange) <==> start + input.window == |input.left|)
      && (start + input.window < |input.left| ==>
            (r == Skip <==> forall k :: start < k <= start + input.window ==> !AudibleAt(input.left, input.right, k)))
      && (start + input.window < |input.left| ==>
            var cut := ScanOutcome(input.left, input.right, start, input.window, input.fadeLength).value;
            && (r == Crash(NoteOutOfRange) <==>
                  cut.samplesToCopy > 0
                  && (input.headerSize > |input.wav| || input.headerSize + FrameOffset(input.right, cut.samplesToCopy) <= 22
                      || start + cut.samplesToCopy > |input.left|))
            && (r == Crash(PitchTableExhausted) <==>
                  cut.samplesToCopy > 0
                  && NoteImage(input.wav, input.left, input.right, input.headerSize, start, cut).Some? && counter >= 99))
      && (r.Export? ==> counter < 99 && r.file.name == NoteFileName(input.folder, input.prefix, Suffix(counter).value))
      && (r.Export? ==>
            var cut := ScanOutcome(input.left, input.right, start, input.window, input.fadeLength).value;
            cut.samplesToCopy > 0 && NoteImage(input.wav, input.left, input.right, input.headerSize, start, cut) == Some(r.file.data))
  {
  }

  /** WindowStep as a total function of the window's start and counter, the
      form the loop below takes. */
  function Stepper(input: Input): (int, int) -> Step
    requires ValidInput(input)
  {
    (start: int, counter: int) =>
      if 0 <= start && 0 <= counter && start + input.window <= |input.left| then WindowStep(input, start, counter)
      else Skip
  }

  /** The rest of the loop from the window at start, with the counters and the
      files so far, given what each window does. */
  function RunFrom(step: (int, int) -> Step, window: int, length: int, start: int, counter: int, exported: int,
                   files: seq<NoteFile>): Summary
    requires 0 < window
    decreases length - start
  {
    if start + window > length then Summary(files, counter, exported, None)
    else
      match step(start, counter)
      case Crash(error) => Summary(files, counter, exported, Some(error))
      case Skip => RunFrom(step, window, length, start + window, counter + 1, exported, files)
      case Export(file) => RunFrom(step, window, length, start + window, counter + 1, exported + 1, files + [file])
  }

  /** step does what WindowStep does on every window that fits in the
      samples. */
  ghost predicate StepsAs(step: (int, int) -> Step, input: Input)
    requires ValidInput(input)
  {
    forall start, counter {:trigger WindowStep(input, start, counter)} ::
      0 <= start && 0 <= counter && start + input.window <= |input.left| ==>
        step(start, counter) == WindowStep(input, start, counter)
  }

  /** The whole run of `cutAndSave` over its input. */
  function Split(input: Input): Summary
    requires ValidInput(input)
  {
    RunFrom(Stepper(input), input.window, |input.left|, 0, 0, 0, [])
  }

  /** One pass of the window loop's body: the backward scan, then for a
      window with an audible sample the note's buffer and its name. */
  method HandleWindow(wav: seq<byte>, left: array<int>, right: array?<int>, headerSize: int, window: int,
                      fadeLength: int, folder: string, prefix: string, currentNoteStart: int, noteCounter: int,
                      ghost input: Input, ghost step: (int, int) -> Step)
    returns (r: Step)
    requires right != null ==> right.Length == left.Length
    requires 0 <= headerSize && 0 < window && 0 <= fadeLength && 0 <= currentNoteStart && 0 <= noteCounter
    requires currentNoteStart + window <= left.Length
    requires headerSize + 6 * (window + fadeLength) <= MaxByteArrayLength
    requires input == Input(wav, left[..], Channel(right), headerSize, window, fadeLength, folder, prefix)
    requires StepsAs(step, input)
    ensures r == step(currentNoteStart, noteCounter)
  {
    assert step(currentNoteStart, noteCounter) == WindowStep(input, currentNoteStart, noteCounter);
    var scan := ScanWindow(left, right, currentNoteStart, window, fadeLength);
    if scan.None? {
      return Crash(ScanOutOfRange);
    }
    var cut := scan.value;
    if cut.samplesToCopy <= 0 {
      return Skip;
    }
    var output := EncodeNote(wav, left, right, headerSize, currentNoteStart, cut);
    if output.None? {
      return Crash(NoteOutOfRange);
    }
    var suffix := Suffix(noteCounter);
    if suffix.None? {
      return Crash(PitchTableExhausted);
    }
    return Export(NoteFile(NoteFileName(folder, prefix, suffix.value), output.value));
  }

  /** `cutAndSave` from the start of the samples to the report of its two
      counters, with `File.WriteAllBytes` collected as the files returned. */
  method CutAndSave(wav: seq<byte>, left: array<int>, right: array?<int>, sampleRate: int, headerSize: int,
                    fadeLength: int, folder: string, prefix: string) returns (s: Summary)
    requires right != null ==> right.Length == left.Length
    requires 0 < sampleRate <= 0x100_0000 && 0 <= headerSize && 0 <= fadeLength
    requires headerSize + 6 * (8 * sampleRate + fadeLength) <= MaxByteArrayLength
    ensures s == Split(Input(wav, left[..], Channel(right), headerSize, 8 * sampleRate, fadeLength, folder, prefix))
  {
    var maxStandardNoteDuration := 8;
    var timeBetweenNotes := 8;
    var samplesBetweenNotes := timeBetweenNotes * sampleRate;
    var window := maxStandardNoteDuration * sampleRate;
    ghost var input := Input(wav, left[..], Channel(right), headerSize, window, fadeLength, folder, prefix);
    ghost var step := Stepper(input);
    assert StepsAs(step, input);
    s := WindowLoop(wav, left, right, headerSize, window, fadeLength, folder, prefix, input, step);
  }

  /** The `while` loop of `cutAndSave`: one window per pass, each a fixed
      8 seconds (`samplesBetweenNotes` equals the window), until a window
      would run past the samples or a pass throws. */
  method WindowLoop(wav: seq<byte>, left: array<int>, right: array?<int>, headerSize: int, window: int,
                    fadeLength: int, folder: string, prefix: string, ghost input: Input, ghost step: (int, int) -> Step)
    returns (s: Summary)
    requires right != null ==> right.Length == left.Length
    requires 0 <= headerSize && 0 < window && 0 <= fadeLength
    requires headerSize + 6 * (window + fadeLength) <= MaxByteArrayLength
    requires input == Input(wav, left[..], Channel(right), headerSize, window, fadeLength, folder, prefix)
    requires StepsAs(step, input)
    ensures s == RunFrom(step, window, left.Length, 0, 0, 0, [])
  {
    var currentNoteStart := 0;
    var noteCounter := 0;
    var notesExported := 0;
    var files: seq<NoteFile> := [];
    while currentNoteStart + window <= left.Length
      invariant 0 <= currentNoteStart && 0 <= noteCounter
      invariant RunFrom(step, window, left.Length, currentNoteStart, noteCounter, notesExported, files)
             == RunFrom(step, window, left.Length, 0, 0, 0, [])
      decreases left.Length - currentNoteStart
    {
      var here := HandleWindow(wav, left, right, headerSize, window, fadeLength, folder, prefix,
                               currentNoteStart, noteCounter, input, step);
      if here.Crash? {
        return Summary(files, noteCounter, notesExported, Some(here.error));
      }
      if here.Export? {
        files := files + [here.file];
        notesExported := notesExported + 1;
      }
      currentNoteStart := currentNoteStart + window;
      noteCounter := noteCounter + 1;
    }
    return Summary(files, noteCounter, notesExported, None);
  }

  // Arithmetic of whole windows.

  /** Multiplying by a positive window keeps the order. */
  lemma MulMonotone(a: int, b: int, w: int)
    requires a <= b && 0 < w
    ensures a * w <= b * w
  {
    assert b * w - a * w == (b - a) * w;
  }

  /** c * w <= n < (c + 1) * w pins down n / w. */
  lemma DivUnique(n: int, w: int, c: int)
    requires 0 < w && c * w <= n < c * w + w
    ensures n / w == c
  {
    var q := n / w;
    assert n == q * w + n % w;
    if q < c {
      MulMonotone(q + 1, c, w);
    } else if q > c {
      MulMonotone(c + 1, q, w);
    }
  }

  /** A multiple of w above c * w is at least (c + 1) * w. */
  lemma NextMultiple(n: int, w: int, c: int)
    requires 0 < w && n % w == 0 && c * w < n
    ensures (c + 1) * w <= n
  {
    var q := n / w;
    assert n == q * w;
    if q <= c {
      MulMonotone(q, c, w);
    }
    MulMonotone(c + 1, q, w);
  }

  // The loop's bookkeeping, whatever each window does.

  /** `notesExported` counts the files written and never exceeds `noteCounter`. */
  lemma {:induction false} RunCounts(step: (int, int) -> Step, window: int, length: int, start: int, counter: int,
                                     exported: int, files: seq<NoteFile>)
    requires 0 < window && exported == |files| <= counter
    ensures var s := RunFrom(step, window, length, start, counter, exported, files);
      s.notesExported == |s.files| <= s.notesEncountered && counter <= s.notesEncountered
    decreases length - start
  {
    if start + window <= length {
      match step(start, counter)
      case Crash(_) =>
      case Skip => RunCounts(step, window, length, start + window, counter + 1, exported, files);
      case Export(file) => RunCounts(step, window, length, start + window, counter + 1, exported + 1, files + [file]);
    }
  }

  /** A run that finishes has visited floor(length / window) windows. */
  lemma {:induction false} RunWindowCount(step: (int, int) -> Step, window: int, length: int, start: int, counter: int,
                                          exported: int, files: seq<NoteFile>)
    requires 0 < window && 0 <= start <= length && start == counter * window
    ensures var s := RunFrom(step, window, length, start, counter, exported, files);
      s.crash.None? ==> s.notesEncountered == length / window
    decreases length - start
  {
    assert start + window == (counter + 1) * window;
    if start + window > length {
      DivUnique(length, window, counter);
    } else {
      match step(start, counter)
      case Crash(_) =>
      case Skip => RunWindowCount(step, window, length, start + window, counter + 1, exported, files);
      case Export(file) => RunWindowCount(step, window, length, start + window, counter + 1, exported + 1, files + [file]);
    }
  }

  /** When only the window ending exactly at the end can crash in the scan, a
      run crashes there only if length is a nonzero multiple of the window. */
  lemma {:induction false} RunScanCrash(step: (int, int) -> Step, window: int, length: int, start: int, counter: int,
                                        exported: int, files: seq<NoteFile>)
    requires 0 < window && 0 <= start && start == counter * window
    requires forall s, c :: s + window < length ==> step(s, c) != Crash(ScanOutOfRange)
    ensures var r := RunFrom(step, window, length, start, counter, exported, files);
      r.crash == Some(ScanOutOfRange) ==> length % window == 0 && length >= window
    decreases length - start
  {
    assert start + window == (counter + 1) * window;
    if start + window <= length {
      match step(start, counter)
      case Crash(error) =>
        if error == ScanOutOfRange {
          DivUnique(length, window, counter + 1);
        }
      case Skip => RunScanCrash(step, window, length, start + window, counter + 1, exported, files);
      case Export(file) => RunScanCrash(step, window, length, start + window, counter + 1, exported + 1, files + [file]);
    }
  }

  /** When the window ending exactly at the end always crashes and length is a
      multiple of the window, a run that reaches a window never finishes. */
  lemma {:induction false} RunFullWindowsCrash(step: (int, int) -> Step, window: int, length: int, start: int,
                                               counter: int, exported: int, files: seq<NoteFile>)
    requires 0 < window && 0 <= start && start == counter * window && start + window <= length
    requires length % window == 0
    requires forall s, c :: 0 <= s && 0 <= c && s + window == length ==> step(s, c).Crash?
    ensures RunFrom(step, window, length, start, counter, exported, files).crash.Some?
    decreases length - start
  {
    assert start + window == (counter + 1) * window;
    if start + window < length {
      NextMultiple(length, window, counter + 1);
      assert start + window + window == (counter + 2) * window;
      match step(start, counter)
      case Crash(_) =>
      case Skip => RunFullWindowsCrash(step, window, length, start + window, counter + 1, exported, files);
      case Export(file) =>
        RunFullWindowsCrash(step, window, length, start + window, counter + 1, exported + 1, files + [file]);
    }
  }

  /** When every window is skipped or crashes in the scan, nothing is written. */
  lemma {:induction false} RunSilent(step: (int, int) -> Step, window: int, length: int, start: int, counter: int,
                                     exported: int, files: seq<NoteFile>)
    requires 0 < window
    requires forall s, c :: step(s, c) == Skip || step(s, c) == Crash(ScanOutOfRange)
    ensures var r := RunFrom(step, window, length, start, counter, exported, files);
      r.files == files && r.notesExported == exported && (r.crash.None? || r.crash == Some(ScanOutOfRange))
    decreases length - start
  {
    if start + window <= length && step(start, counter) == Skip {
      RunSilent(step, window, length, start + window, counter + 1, exported, files);
    }
  }

  /** Each file name's number is at most the windows counted so far, and the
      numbers grow along the files. */
  predicate Numbered(files: seq<NoteFile>, base: int, counter: int) {
    && 0 <= base
    && (forall j :: 0 <= j < |files| ==> base + 5 <= |files[j].name| && NoteNumber(files[j].name, base) <= counter)
    && (forall j1, j2 :: 0 <= j1 < j2 < |files| ==> NoteNumber(files[j1].name, base) < NoteNumber(files[j2].name, base))
  }

  /** When the file of window c carries number c + 1, the files of a run carry
      strictly increasing numbers. */
  lemma {:induction false} RunNumbered(step: (int, int) -> Step, window: int, length: int, start: int, counter: int,
                                       exported: int, files: seq<NoteFile>, base: int)
    requires 0 < window && 0 <= counter && Numbered(files, base, counter)
    requires forall s, c :: 0 <= c && step(s, c).Export? ==>
      base + 5 <= |step(s, c).file.name| && NoteNumber(step(s, c).file.name, base) == c + 1
    ensures Numbered(RunFrom(step, window, length, start, counter, exported, files).files, base,
                     RunFrom(step, window, length, start, counter, exported, files).notesEncountered)
    decreases length - start
  {
    if start + window <= length {
      match step(start, counter)
      case Crash(_) =>
      case Skip => RunNumbered(step, window, length, start + window, counter + 1, exported, files, base);
      case Export(file) =>
        var grown := files + [file];
        assert forall j :: 0 <= j < |files| ==> grown[j] == files[j];
        RunNumbered(step, window, length, start + window, counter + 1, exported + 1, grown, base);
    }
  }

  // What each window of cutAndSave does, as the lemmas above need it.

  /** Only the window ending exactly at the end of the samples crashes in
      the scan, and it always does. */
  lemma ScanCrashes(input: Input)
    requires ValidInput(input)
    ensures forall s, c :: s + input.window < |input.left| ==> Stepper(input)(s, c) != Crash(ScanOutOfRange)
    ensures forall s, c :: 0 <= s && 0 <= c && s + input.window == |input.left| ==> Stepper(input)(s, c).Crash?
  {
    forall s, c | 0 <= s && 0 <= c && s + input.window <= |input.left| {
      WindowStepFacts(input, s, c);
    }
  }

  /** Without an audible sample every window is skipped or crashes in the
      scan. */
  lemma SilentSteps(input: Input)
    requires ValidInput(input)
    requires forall k :: 0 <= k < |input.left| ==> !AudibleAt(input.left, input.right, k)
    ensures forall s, c :: Stepper(input)(s, c) == Skip || Stepper(input)(s, c) == Crash(ScanOutOfRange)
  {
    forall s, c | 0 <= s && 0 <= c && s + input.window <= |input.left| {
      WindowStepFacts(input, s, c);
    }
  }

  /** The file of window c carries number c + 1. */
  lemma NumberedSteps(input: Input)
    requires ValidInput(input)
    ensures forall s, c :: 0 <= c && Stepper(input)(s, c).Export? ==>
      var base, name := |input.folder| + |input.prefix|, Stepper(input)(s, c).file.name;
      base + 5 <= |name| && NoteNumber(name, base) == c + 1
  {
    forall s, c | 0 <= c && Stepper(input)(s, c).Export?
      ensures var base, name := |input.folder| + |input.prefix|, Stepper(input)(s, c).file.name;
        base + 5 <= |name| && NoteNumber(name, base) == c + 1
    {
      WindowStepFacts(input, s, c);
      NameNumber(input.folder, input.prefix, c);
    }
  }

  // Properties of a whole run.

  /** The counts of a whole run: `notesExported` files, no more than
      `noteCounter`, which for a run that finishes is floor(|left| / window). */
  lemma RunTotals(input: Input)
    requires ValidInput(input)
    ensures var s := Split(input);
      && s.notesExported == |s.files| <= s.notesEncountered
      && (s.crash.None? ==> s.notesEncountered == |input.left| / input.window)
  {
    RunCounts(Stepper(input), input.window, |input.left|, 0, 0, 0, []);
    RunWindowCount(Stepper(input), input.window, |input.left|, 0, 0, 0, []);
  }

  /** The scan's read past the end: a run crashes in the scan only when |left|
      is a nonzero multiple of the window, and every such run crashes. */
  lemma LastWindowCrash(input: Input)
    requires ValidInput(input)
    ensures Split(input).crash == Some(ScanOutOfRange) ==> |input.left| % input.window == 0 && |input.left| >= input.window
    ensures |input.left| % input.window == 0 && |input.left| >= input.window ==> Split(input).crash.Some?
  {
    ScanCrashes(input);
    RunScanCrash(Stepper(input), input.window, |input.left|, 0, 0, 0, []);
    if |input.left| % input.window == 0 && |input.left| >= input.window {
      RunFullWindowsCrash(Stepper(input), input.window, |input.left|, 0, 0, 0, []);
    }
  }

  /** A recording without an audible sample yields no files. */
  lemma SilentRun(input: Input)
    requires ValidInput(input)
    requires forall k :: 0 <= k < |input.left| ==> !AudibleAt(input.left, input.right, k)
    ensures Split(input).files == [] && Split(input).notesExported == 0
    ensures Split(input).crash.None? || Split(input).crash == Some(ScanOutOfRange)
  {
    SilentSteps(input);
    RunSilent(Stepper(input), input.window, |input.left|, 0, 0, 0, []);
  }

  /** No two notes of a run are written to the same file. */
  lemma DistinctFileNames(input: Input)
    requires ValidInput(input)
    ensures var files := Split(input).files;
      forall j1, j2 :: 0 <= j1 < j2 < |files| ==> files[j1].name != files[j2].name
  {
    NumberedSteps(input);
    RunNumbered(Stepper(input), input.window, |input.left|, 0, 0, 0, [], |input.folder| + |input.prefix|);
  }
}
