/** The silence search of `cutAndSave`: within one window of the decoded
    samples, the backward scan for the last audible sample. */
module Segmenter {
  import opened Util

  /** `(int)Math.Pow(20, bytesPerSample)` for the only width `openWav`
      accepts, three bytes per sample. */
  const AudibleThreshold: int := 8000

  /** The right channel as the scan sees it: absent for anything but stereo. */
  function Channel(a: array?<int>): (c: Option<seq<int>>)
    reads a
    ensures c.None? <==> a == null
    ensures a != null ==> c.value == a[..]
  {
    if a == null then None else Some(a[..])
  }

  /** Both channels have the same length, as `openWav` allocates them. */
  predicate SameLength(left: seq<int>, right: Option<seq<int>>) {
    right.Some? ==> |right.value| == |left|
  }

  /** The scan's test at sample k: the left sample exceeds the threshold or,
      when there is a right channel, the right one does. The comparison is
      signed: a loud negative swing does not count. */
  predicate AudibleAt(left: seq<int>, right: Option<seq<int>>, k: int)
    requires SameLength(left, right) && 0 <= k < |left|
  {
    left[k] > AudibleThreshold || (right.Some? && right.value[k] > AudibleThreshold)
  }

  /** The largest i in 1 .. n whose sample start + i is audible, or 0 when
      none is. */
  function LastAudible(left: seq<int>, right: Option<seq<int>>, start: int, n: int): (i: int)
    requires SameLength(left, right) && 0 <= start && 0 <= n && start + n < |left|
    ensures 0 <= i <= n
    ensures i > 0 ==> AudibleAt(left, right, start + i)
    ensures forall k :: start + i < k <= start + n ==> !AudibleAt(left, right, k)
    decreases n
  {
    if n == 0 then 0
    else if AudibleAt(left, right, start + n) then n
    else LastAudible(left, right, start, n - 1)
  }

  /** Where a note ends: the last audible sample and the number of samples to
      copy, that sample plus the fade-out. Both 0 for a silent window. */
  datatype Cut = Cut(fadeOutStart: int, samplesToCopy: int)

  /** The outcome of the scan over the window at start: None when its first
      read, `left[start + window]`, lies past the end of the samples (C#
      throws), otherwise the cut at the last audible sample. */
  function ScanOutcome(left: seq<int>, right: Option<seq<int>>, start: int, window: int, fadeLength: int): (r: Option<Cut>)
    requires SameLength(left, right) && 0 <= start && 0 < window && 0 <= fadeLength
    ensures r.None? <==> start + window >= |left|
    ensures r.Some? ==> 0 <= r.value.fadeOutStart <= window
    ensures r.Some? ==> (r.value.samplesToCopy > 0 <==> exists k :: start < k <= start + window && AudibleAt(left, right, k))
    ensures r.Some? && r.value.samplesToCopy > 0 ==>
      && r.value.samplesToCopy == r.value.fadeOutStart + fadeLength
      && AudibleAt(left, right, start + r.value.fadeOutStart)
      && forall k :: start + r.value.fadeOutStart < k <= start + window ==> !AudibleAt(left, right, k)
    ensures r.Some? && r.value.samplesToCopy <= 0 ==> r.value == Cut(0, 0)
  {
    if start + window >= |left| then None
    else
      var i := LastAudible(left, right, start, window);
      Some(if i > 0 then Cut(i, i + fadeLength) else Cut(0, 0))
  }

  /** The backward `for` loop of `cutAndSave` over one window, with its
      `break` at the first audible sample met. */
  method ScanWindow(left: array<int>, right: array?<int>, start: int, window: int, fadeLength: int)
    returns (r: Option<Cut>)
    requires right != null ==> right.Length == left.Length
    requires 0 <= start && 0 < window && 0 <= fadeLength
    ensures r == ScanOutcome(left[..], Channel(right), start, window, fadeLength)
  {
    var samplesToCopy := 0;
    var fadeOutStart := 0;
    var i := window;
    while i > 0
      invariant 0 <= i <= window
      invariant i < window ==> start + window < left.Length
      invariant forall k :: start + i < k <= start + window ==> !AudibleAt(left[..], Channel(right), k)
      decreases i
    {
      if start + i >= left.Length {
        return None;
      }
      if left[start + i] > AudibleThreshold || (right != null && right[start + i] > AudibleThreshold) {
        assert AudibleAt(left[..], Channel(right), start + i);
        fadeOutStart := i;
        samplesToCopy := i + fadeLength;
        break;
      }
      assert !AudibleAt(left[..], Channel(right), start + i);
      i := i - 1;
    }
    return Some(Cut(fadeOutStart, samplesToCopy));
  }
}
