/** The file names `cutAndSave` gives the notes it exports: the input's
    folder and name, then `_-_`, the two-digit 1-based window number, `_` and
    the pitch of that window from a fixed table. */
module NoteNamer {
  import opened Util

  /** The pitch table, one name per window in order: A1 to B1, then C to B
      for octaves 2 to 9, sharps written with a trailing S. It holds 99
      names. */
  const PitchNames: seq<string> := [
    "A1", "A1S", "B1",
    "C2", "C2S", "D2", "D2S", "E2", "F2", "F2S", "G2", "G2S", "A2", "A2S", "B2",
    "C3", "C3S", "D3", "D3S", "E3", "F3", "F3S", "G3", "G3S", "A3", "A3S", "B3",
    "C4", "C4S", "D4", "D4S", "E4", "F4", "F4S", "G4", "G4S", "A4", "A4S", "B4",
    "C5", "C5S", "D5", "D5S", "E5", "F5", "F5S", "G5", "G5S", "A5", "A5S", "B5",
    "C6", "C6S", "D6", "D6S", "E6", "F6", "F6S", "G6", "G6S", "A6", "A6S", "B6",
    "C7", "C7S", "D7", "D7S", "E7", "F7", "F7S", "G7", "G7S", "A7", "A7S", "B7",
    "C8", "C8S", "D8", "D8S", "E8", "F8", "F8S", "G8", "G8S", "A8", "A8S", "B8",
    "C9", "C9S", "D9", "D9S", "E9", "F9", "F9S", "G9", "G9S", "A9", "A9S", "B9"
  ]

  /** `suffixArray[i]`. Reading the table through this function keeps its
      99 entries out of every proof that does not look one up. */
  function PitchName(i: int): string
    requires 0 <= i < 99
  {
    PitchNames[i]
  }

  /** The value of a decimal digit character. */
  function DigitValue(c: char): int {
    c as int - '0' as int
  }

  predicate IsDigit(c: char) {
    '0' <= c <= '9'
  }

  /** `ToString("00")` for a number below 100: two decimal digits, with a
      leading zero below 10. */
  function TwoDigits(n: int): (s: string)
    requires 0 <= n < 100
    ensures |s| == 2 && IsDigit(s[0]) && IsDigit(s[1])
    ensures 10 * DigitValue(s[0]) + DigitValue(s[1]) == n
  {
    [('0' as int + n / 10) as char, ('0' as int + n % 10) as char]
  }

  /** The suffix for window number counter (0-based): `_-_`, counter + 1 in
      two digits, `_` and the window's pitch; None where `suffixArray[noteCounter]`
      throws, past the end of the table. */
  function Suffix(counter: int): (r: Option<string>)
    requires 0 <= counter
    ensures r.Some? <==> counter < 99
    ensures r.Some? ==> |r.value| >= 6 && r.value[..3] == "_-_" && r.value[5] == '_'
    ensures r.Some? ==> 10 * DigitValue(r.value[3]) + DigitValue(r.value[4]) == counter + 1
    ensures r.Some? ==> r.value[6..] == PitchName(counter)
  {
    if counter < 99 then Some("_-_" + TwoDigits(counter + 1) + "_" + PitchName(counter)) else None
  }

  /** `$"{outputFolder}{_noteNamePrefix}{suffix}.wav"`. */
  function NoteFileName(folder: string, prefix: string, suffix: string): (name: string)
    ensures |name| == |folder| + |prefix| + |suffix| + 4
    ensures name[..|folder|] == folder && name[|folder|..|folder| + |prefix|] == prefix
    ensures name[|folder| + |prefix|..|folder| + |prefix| + |suffix|] == suffix
    ensures name[|name| - 4..] == ".wav"
  {
    folder + prefix + suffix + ".wav"
  }

  /** The number a note's file name carries: the two digits after the
      folder, the prefix and `_-_`. */
  function NoteNumber(name: string, base: int): int
    requires 0 <= base && base + 5 <= |name|
  {
    10 * DigitValue(name[base + 3]) + DigitValue(name[base + 4])
  }

  /** The file name of window counter reads back as window number counter + 1. */
  lemma NameNumber(folder: string, prefix: string, counter: int)
    requires 0 <= counter < 99
    ensures var name := NoteFileName(folder, prefix, Suffix(counter).value);
      && |folder| + |prefix| + 5 <= |name|
      && NoteNumber(name, |folder| + |prefix|) == counter + 1
  {
    var suffix := Suffix(counter).value;
    var name := NoteFileName(folder, prefix, suffix);
    var base := |folder| + |prefix|;
    assert name[base..base + |suffix|] == suffix;
    assert name[base + 3] == suffix[3] && name[base + 4] == suffix[4];
  }

  /** Different windows get different file names. */
  lemma NamesDistinct(folder: string, prefix: string, c1: int, c2: int)
    requires 0 <= c1 < 99 && 0 <= c2 < 99 && c1 != c2
    ensures NoteFileName(folder, prefix, Suffix(c1).value) != NoteFileName(folder, prefix, Suffix(c2).value)
  {
    NameNumber(folder, prefix, c1);
    NameNumber(folder, prefix, c2);
  }
}
