/** local_asr_streaming.py: recognition of a growing recording at its pauses. */
module PauseStream {
  import opened Wrappers

  const RATE := 16000
  const FRAME := 640
  const MAX_PENDING := RATE * 2 * 60
  const MAX_RECORDING := RATE * 2 * 60 * 30

  type byte = x: int | 0 <= x < 256

  type Bytes = seq<byte>

  // ----- Samples ------------------------------------------------------------------------------------

  /** Little-endian signed 16-bit. */
  function Sample(low: byte, high: byte): int {
    var value := low + 256 * high;
    if value >= 0x8000 then value - 0x10000 else value
  }

  function Energy(pcm: Bytes): nat
    requires |pcm| % 2 == 0
  {
    if pcm == [] then 0 else Sample(pcm[0], pcm[1]) * Sample(pcm[0], pcm[1]) + Energy(pcm[2..])
  }

  /** The mean square of the frame is below 100 * 100. */
  predicate Quiet(frame: Bytes) {
    |frame| == FRAME && Energy(frame) < 100 * 100 * (FRAME / 2)
  }

  predicate Small(pcm: Bytes)
    requires |pcm| % 2 == 0
  {
    pcm == [] || (-100 <= Sample(pcm[0], pcm[1]) <= 100 && Small(pcm[2..]))
  }

  /** A tail that may be skipped; an odd number of bytes is no PCM. */
  predicate QuietTail(pcm: Bytes) {
    |pcm| % 2 == 0 && pcm != [] && Small(pcm) && Energy(pcm) < 25 * 25 * (|pcm| / 2)
  }

  /** Two's complement: the one value of the range that the bytes stand for. */
  lemma SampleIsExact(low: byte, high: byte, value: int)
    ensures value == Sample(low, high) <==> -32768 <= value <= 32767 && (value - low - 256 * high) % 65536 == 0
  {}

  /** Every sample of `pcm` is `v`. */
  predicate Level(pcm: Bytes, v: int) {
    |pcm| % 2 == 0 && forall i :: 0 <= i < |pcm| && i % 2 == 0 ==> Sample(pcm[i], pcm[i + 1]) == v
  }

  lemma {:induction false} LevelEnergy(pcm: Bytes, v: int)
    requires Level(pcm, v)
    ensures Energy(pcm) == |pcm| / 2 * (v * v)
    ensures pcm != [] ==> (Small(pcm) <==> -100 <= v <= 100)
  {
    hide Sample;
    if pcm != [] {
      assert Sample(pcm[0], pcm[0 + 1]) == v;
      forall i | 0 <= i < |pcm[2..]| && i % 2 == 0 ensures Sample(pcm[2..][i], pcm[2..][i + 1]) == v {
        assert (i + 2) % 2 == 0 && Sample(pcm[i + 2], pcm[i + 2 + 1]) == v;
      }
      LevelEnergy(pcm[2..], v);
      OneMore(|pcm[2..]| / 2, v * v);
    }
  }

  lemma OneMore(n: nat, e: int)
    ensures e + n * e == (n + 1) * e
  {}

  /** Where the levels of silence are: a frame of twenty milliseconds below 100, a tail below 25. */
  lemma SilenceIsExact(pcm: Bytes, v: int)
    requires Level(pcm, v)
    ensures |pcm| == 640 ==> (Quiet(pcm) <==> -100 < v < 100)
    ensures pcm != [] ==> (QuietTail(pcm) <==> -25 < v < 25)
  {
    hide Energy, Small;
    LevelEnergy(pcm, v);
    Bounded(v, 100);
    Bounded(v, 25);
    if pcm != [] {
      Scaled(|pcm| / 2, v * v, 625);
    }
  }

  /** However short, a sample above 100 keeps a tail from being skipped. */
  lemma {:induction false} SpikeIsKept(pcm: Bytes, i: nat)
    requires |pcm| % 2 == 0 && 2 * i + 1 < |pcm| && !(-100 <= Sample(pcm[2 * i], pcm[2 * i + 1]) <= 100)
    ensures !Small(pcm) && !QuietTail(pcm)
    decreases i
  {
    hide Sample, Energy;
    if i > 0 {
      assert pcm[2..][2 * (i - 1)] == pcm[2 * i] && pcm[2..][2 * (i - 1) + 1] == pcm[2 * i + 1];
      SpikeIsKept(pcm[2..], i - 1);
    }
  }

  lemma Bounded(v: int, bound: int)
    requires bound > 0
    ensures v * v < bound * bound <==> -bound < v < bound
  {
    if v >= bound {
      assert v * v >= bound * bound;
    } else if v <= -bound {
      assert (-v) * (-v) >= bound * bound;
    } else if v >= 0 {
      assert v * v <= v * bound;
    } else {
      assert (-v) * (-v) <= (-v) * bound;
    }
  }

  lemma Scaled(n: nat, a: int, b: int)
    requires n > 0
    ensures n * a < b * n <==> a < b
  {
    if a < b {
      assert n * (b - a) > 0;
    } else {
      assert n * (a - b) >= 0;
    }
  }

  // ----- Scanning for pauses --------------------------------------------------------------------------

  /** Where the scan of a recording stands: `committed` bytes are decoded, `scanned` more bytes
      were looked at, the last `silent` of them quiet. */
  datatype Scanner = Scanner(committed: nat, scanned: nat, silent: nat, speech: bool, cuts: seq<nat>)

  const START := Scanner(0, 0, 0, false, [])

  predicate CanAdvance(stream: Bytes, s: Scanner) {
    s.committed + s.scanned + FRAME <= |stream|
  }

  predicate IsPause(s: Scanner) {
    s.speech && s.silent >= RATE * 2 && s.scanned >= RATE * 2 * 3
  }

  /** One more frame. */
  function Look(stream: Bytes, s: Scanner): Scanner
    requires CanAdvance(stream, s)
  {
    var at := s.committed + s.scanned;
    var quiet := Quiet(stream[at..at + FRAME]);
    s.(silent := if quiet then s.silent + FRAME else 0, speech := s.speech || !quiet, scanned := s.scanned + FRAME)
  }

  /** A cut keeps half a second of the pause on each side. */
  function Cut(s: Scanner): Scanner
    requires IsPause(s)
  {
    var cut := s.committed + s.scanned - RATE;
    Scanner(cut, 0, 0, false, s.cuts + [cut])
  }

  function Advance(stream: Bytes, s: Scanner): (r: Scanner)
    requires CanAdvance(stream, s)
    ensures r.committed > s.committed || (r.committed == s.committed && r.scanned > s.scanned)
    ensures r.committed + r.scanned <= |stream|
  {
    var looked := Look(stream, s);
    if IsPause(looked) then Cut(looked) else looked
  }

  function Scan(stream: Bytes, s: Scanner): Scanner
    decreases |stream| - s.committed, |stream| - s.committed - s.scanned
  {
    if CanAdvance(stream, s) then Scan(stream, Advance(stream, s)) else s
  }

  /** How the recording arrives does not matter: looking at a part of it first gives the same
      cuts in the end. */
  lemma {:induction false} ChunksDoNotMatter(part: Bytes, more: Bytes, s: Scanner)
    ensures Scan(part + more, Scan(part, s)) == Scan(part + more, s)
    decreases |part| - s.committed, |part| - s.committed - s.scanned
  {
    hide Quiet;
    if CanAdvance(part, s) {
      FrameIsThere(part, more, s);
      ChunksDoNotMatter(part, more, Advance(part, s));
    }
  }

  lemma FrameIsThere(part: Bytes, more: Bytes, s: Scanner)
    requires CanAdvance(part, s)
    ensures CanAdvance(part + more, s) && Advance(part + more, s) == Advance(part, s)
  {
    hide Quiet;
    var at := s.committed + s.scanned;
    assert (part + more)[at..at + FRAME] == part[at..at + FRAME];
  }

  /** All frames from `a` to `b`, counted from the start of the stream, are quiet. */
  ghost predicate QuietBetween(stream: Bytes, a: int, b: int) {
    && 0 <= a && b <= |stream|
    && forall k :: a <= k * FRAME && (k + 1) * FRAME <= b ==> Quiet(stream[k * FRAME..(k + 1) * FRAME])
  }

  predicate Aligned(n: int) {
    n % FRAME == 0
  }

  lemma AlignedSum(a: int, b: int)
    requires Aligned(a) && Aligned(b)
    ensures Aligned(a + b) && Aligned(a - b)
  {}

  lemma AlignedHalf()
    ensures Aligned(FRAME) && Aligned(RATE) && Aligned(0)
  {}

  /** A cut lies on a frame, half a second of quiet frames on each side. */
  ghost predicate SafeCut(stream: Bytes, cut: nat) {
    Aligned(cut) && QuietBetween(stream, cut - RATE, cut + RATE)
  }

  function LastCut(cuts: seq<nat>): nat {
    if cuts == [] then 0 else cuts[|cuts| - 1]
  }

  /** Each committed part is at least two and a half seconds long. */
  predicate Spaced(cuts: seq<nat>) {
    cuts == [] || (cuts[|cuts| - 1] >= LastCut(cuts[..|cuts| - 1]) + RATE * 5 && Spaced(cuts[..|cuts| - 1]))
  }

  ghost predicate ScannerOk(stream: Bytes, s: Scanner) {
    && Aligned(s.committed) && Aligned(s.scanned) && Aligned(s.silent)
    && s.silent <= s.scanned && s.committed + s.scanned <= |stream|
    && QuietBetween(stream, s.committed + s.scanned - s.silent, s.committed + s.scanned)
    && (forall c :: c in s.cuts ==> SafeCut(stream, c))
    && s.committed == LastCut(s.cuts)
    && Spaced(s.cuts)
  }

  lemma QuietGrows(stream: Bytes, a: int, b: int)
    requires Aligned(a) && Aligned(b) && a <= b && b + FRAME <= |stream|
    requires QuietBetween(stream, a, b) && Quiet(stream[b..b + FRAME])
    ensures QuietBetween(stream, a, b + FRAME)
  {
    hide Quiet;
    forall k | a <= k * FRAME && (k + 1) * FRAME <= b + FRAME
      ensures Quiet(stream[k * FRAME..(k + 1) * FRAME])
    {
      if (k + 1) * FRAME > b {
        assert k * FRAME == b;
      }
    }
  }

  lemma LookKeeps(stream: Bytes, s: Scanner)
    requires ScannerOk(stream, s) && CanAdvance(stream, s)
    ensures ScannerOk(stream, Look(stream, s))
  {
    hide Quiet, QuietBetween, Spaced, SafeCut, Aligned;
    var at := s.committed + s.scanned;
    AlignedHalf();
    AlignedSum(s.committed, s.scanned);
    AlignedSum(s.scanned, FRAME);
    AlignedSum(s.silent, FRAME);
    AlignedSum(at, s.silent);
    if Quiet(stream[at..at + FRAME]) {
      QuietGrows(stream, at - s.silent, at);
    } else {
      NothingBetween(stream, at + FRAME);
    }
  }

  lemma NothingBetween(stream: Bytes, at: nat)
    requires at <= |stream|
    ensures QuietBetween(stream, at, at)
  {}

  lemma CutKeeps(stream: Bytes, s: Scanner)
    requires ScannerOk(stream, s) && IsPause(s)
    ensures ScannerOk(stream, Cut(s))
  {
    hide Quiet, QuietBetween, Aligned;
    var end := s.committed + s.scanned;
    AlignedHalf();
    AlignedSum(s.committed, s.scanned);
    AlignedSum(end, RATE);
    var cut := end - RATE;
    QuietInside(stream, end - s.silent, end, cut - RATE, cut + RATE);
    NothingBetween(stream, cut);
    var c := Cut(s);
    assert c.cuts[..|c.cuts| - 1] == s.cuts;
    assert forall x :: x in c.cuts ==> x in s.cuts || x == cut;
  }

  lemma QuietInside(stream: Bytes, a: int, b: int, c: int, d: int)
    requires QuietBetween(stream, a, b) && a <= c && d <= b
    ensures QuietBetween(stream, c, d)
  {
    hide Quiet;
  }

  lemma AdvanceKeeps(stream: Bytes, s: Scanner)
    requires ScannerOk(stream, s) && CanAdvance(stream, s)
    ensures ScannerOk(stream, Advance(stream, s))
  {
    hide ScannerOk, Look, Cut;
    LookKeeps(stream, s);
    if IsPause(Look(stream, s)) {
      CutKeeps(stream, Look(stream, s));
    }
  }

  lemma MoreKeeps(stream: Bytes, more: Bytes, s: Scanner)
    requires ScannerOk(stream, s)
    ensures ScannerOk(stream + more, s)
  {
    hide Quiet;
    forall a, b | QuietBetween(stream, a, b) ensures QuietBetween(stream + more, a, b) {
      QuietStays(stream, more, a, b);
    }
  }

  lemma QuietStays(stream: Bytes, more: Bytes, a: int, b: int)
    requires QuietBetween(stream, a, b)
    ensures QuietBetween(stream + more, a, b)
  {
    hide Quiet;
    forall k | a <= k * FRAME && (k + 1) * FRAME <= b
      ensures Quiet((stream + more)[k * FRAME..(k + 1) * FRAME])
    {
      assert (stream + more)[k * FRAME..(k + 1) * FRAME] == stream[k * FRAME..(k + 1) * FRAME];
    }
  }

  /** Every cut that the scan of a whole recording makes is safe. */
  lemma {:induction false} ScanIsSafe(stream: Bytes, s: Scanner)
    requires ScannerOk(stream, s)
    ensures ScannerOk(stream, Scan(stream, s))
    decreases |stream| - s.committed, |stream| - s.committed - s.scanned
  {
    hide ScannerOk, Quiet, Advance;
    if CanAdvance(stream, s) {
      AdvanceKeeps(stream, s);
      AdvanceMoves(stream, s);
      ScanIsSafe(stream, Advance(stream, s));
    }
  }

  lemma AdvanceMoves(stream: Bytes, s: Scanner)
    requires CanAdvance(stream, s)
    ensures var r := Advance(stream, s);
            r.committed > s.committed || (r.committed == s.committed && r.scanned > s.scanned)
  {}

  // ----- No pause is missed ---------------------------------------------------------------------------

  /** The part from `from` to `end` is long enough, has something that is not quiet, and ends
      in a second of quiet frames. */
  ghost predicate PauseAt(stream: Bytes, from: nat, end: nat) {
    && end >= from + 3 * 2 * 16000
    && QuietBetween(stream, end - 2 * 16000, end) && !QuietBetween(stream, from, end)
  }

  ghost predicate NoPauseBefore(stream: Bytes, from: nat, end: nat) {
    forall e: nat :: from < e < end && Aligned(e) ==> !PauseAt(stream, from, e)
  }

  function Previous(cuts: seq<nat>, i: nat): nat {
    if 0 < i <= |cuts| then cuts[i - 1] else 0
  }

  /** A cut is half a second before the end of the first pause behind the cut before it. */
  ghost predicate FirstPauses(stream: Bytes, cuts: seq<nat>) {
    forall i :: 0 <= i < |cuts| ==>
      && PauseAt(stream, Previous(cuts, i), cuts[i] + RATE)
      && NoPauseBefore(stream, Previous(cuts, i), cuts[i] + RATE)
  }

  /** The scanner's memory of the part behind the last cut is exact. */
  ghost predicate Remembers(stream: Bytes, s: Scanner) {
    var at := s.committed + s.scanned;
    && (s.speech <==> !QuietBetween(stream, s.committed, at))
    && (s.silent == s.scanned || !QuietBetween(stream, at - s.silent - FRAME, at))
    && NoPauseBefore(stream, s.committed, at + 1)
    && FirstPauses(stream, s.cuts)
  }

  lemma QuietSplits(stream: Bytes, a: int, b: nat)
    requires Aligned(a) && Aligned(b) && 0 <= a <= b && b + FRAME <= |stream|
    ensures QuietBetween(stream, a, b + FRAME) <==> QuietBetween(stream, a, b) && Quiet(stream[b..b + FRAME])
  {
    hide Quiet, QuietBetween;
    if QuietBetween(stream, a, b + FRAME) {
      QuietInside(stream, a, b + FRAME, a, b);
      LastIsQuiet(stream, a, b);
    }
    if QuietBetween(stream, a, b) && Quiet(stream[b..b + FRAME]) {
      QuietGrows(stream, a, b);
    }
  }

  lemma LastIsQuiet(stream: Bytes, a: int, b: nat)
    requires Aligned(b) && 0 <= a <= b && b + FRAME <= |stream| && QuietBetween(stream, a, b + FRAME)
    ensures Quiet(stream[b..b + FRAME])
  {
    hide Quiet;
    var k := b / FRAME;
    assert k * FRAME == b && (k + 1) * FRAME == b + FRAME;
  }

  /** After a frame, the scanner sees a pause exactly where there is one. */
  lemma PauseIsSeen(stream: Bytes, s: Scanner)
    requires ScannerOk(stream, s)
    requires s.speech <==> !QuietBetween(stream, s.committed, s.committed + s.scanned)
    requires s.silent == s.scanned ||
             !QuietBetween(stream, s.committed + s.scanned - s.silent - FRAME, s.committed + s.scanned)
    ensures IsPause(s) <==> PauseAt(stream, s.committed, s.committed + s.scanned)
  {
    hide QuietBetween, SafeCut, Spaced, LastCut;
    var at := s.committed + s.scanned;
    if IsPause(s) {
      QuietInside(stream, at - s.silent, at, at - 2 * RATE, at);
    }
    if PauseAt(stream, s.committed, at) && s.silent < 2 * RATE {
      WholeFrames(s.silent);
      QuietInside(stream, at - 2 * RATE, at, at - s.silent - FRAME, at);
    }
  }

  lemma WholeFrames(silent: nat)
    requires Aligned(silent) && silent < 2 * RATE
    ensures silent + FRAME <= 2 * RATE
  {}

  lemma LookRemembers(stream: Bytes, s: Scanner)
    requires ScannerOk(stream, s) && Remembers(stream, s) && CanAdvance(stream, s)
    ensures var r := Look(stream, s);
            && (r.speech <==> !QuietBetween(stream, r.committed, r.committed + r.scanned))
            && (r.silent == r.scanned ||
                !QuietBetween(stream, r.committed + r.scanned - r.silent - FRAME, r.committed + r.scanned))
  {
    hide Quiet, QuietBetween, SafeCut, Spaced, LastCut, NoPauseBefore, FirstPauses, Aligned;
    var at := s.committed + s.scanned;
    AlignedHalf();
    AlignedSum(s.committed, s.scanned);
    AlignedSum(at, s.silent);
    AlignedSum(at - s.silent, FRAME);
    QuietSplits(stream, s.committed, at);
    QuietSplits(stream, at, at);
    NothingBetween(stream, at);
    if s.silent < s.scanned {
      FrameBefore(s.silent, s.scanned);
      QuietSplits(stream, at - s.silent - FRAME, at);
    }
  }

  lemma FrameBefore(silent: nat, scanned: nat)
    requires Aligned(silent) && Aligned(scanned) && silent < scanned
    ensures silent + FRAME <= scanned
  {}

  lemma NextAligned(at: nat, e: nat)
    requires Aligned(at) && Aligned(e) && at < e <= at + FRAME
    ensures e == at + FRAME
  {}

  lemma AdvanceRemembers(stream: Bytes, s: Scanner)
    requires ScannerOk(stream, s) && Remembers(stream, s) && CanAdvance(stream, s)
    ensures Remembers(stream, Advance(stream, s))
  {
    hide Quiet, QuietBetween, SafeCut, Spaced, PauseAt, ScannerOk;
    var looked := Look(stream, s);
    var at := s.committed + s.scanned;
    LookKeeps(stream, s);
    LookRemembers(stream, s);
    PauseIsSeen(stream, looked);
    PositionsAlign(stream, s);
    forall e: nat | s.committed < e < at + FRAME && Aligned(e)
      ensures !PauseAt(stream, s.committed, e)
    {
      if e > at {
        NextAligned(at, e);
        assert false;
      }
    }
    if IsPause(looked) {
      CutRemembers(stream, s, looked);
    } else {
      forall e: nat | s.committed < e < at + FRAME + 1 && Aligned(e)
        ensures !PauseAt(stream, s.committed, e)
      {
        if e >= at + FRAME {
          assert e == looked.committed + looked.scanned;
        }
      }
    }
  }

  lemma PositionsAlign(stream: Bytes, s: Scanner)
    requires ScannerOk(stream, s)
    ensures Aligned(s.committed + s.scanned) && s.committed == LastCut(s.cuts)
  {
    hide QuietBetween, Spaced, SafeCut;
  }

  lemma CutRemembers(stream: Bytes, s: Scanner, looked: Scanner)
    requires ScannerOk(stream, s) && Remembers(stream, s) && CanAdvance(stream, s) && looked == Look(stream, s)
    requires IsPause(looked) && PauseAt(stream, s.committed, looked.committed + looked.scanned)
    requires NoPauseBefore(stream, s.committed, looked.committed + looked.scanned)
    ensures Remembers(stream, Cut(looked))
  {
    hide Quiet, QuietBetween, SafeCut, Spaced, PauseAt, NoPauseBefore;
    var cut := Cut(looked);
    NothingBetween(stream, cut.committed);
    NothingHere(stream, cut.committed);
    forall i | 0 <= i < |cut.cuts|
      ensures PauseAt(stream, Previous(cut.cuts, i), cut.cuts[i] + RATE)
      ensures NoPauseBefore(stream, Previous(cut.cuts, i), cut.cuts[i] + RATE)
    {
      if i < |s.cuts| {
        assert Previous(cut.cuts, i) == Previous(s.cuts, i) && cut.cuts[i] == s.cuts[i];
      } else {
        assert Previous(cut.cuts, i) == LastCut(s.cuts);
      }
    }
  }

  lemma NothingHere(stream: Bytes, from: nat)
    ensures NoPauseBefore(stream, from, from + 1)
  {}

  lemma {:induction false} ScanRemembers(stream: Bytes, s: Scanner)
    requires ScannerOk(stream, s) && Remembers(stream, s)
    ensures ScannerOk(stream, Scan(stream, s)) && Remembers(stream, Scan(stream, s))
    ensures !CanAdvance(stream, Scan(stream, s))
    decreases |stream| - s.committed, |stream| - s.committed - s.scanned
  {
    hide ScannerOk, Remembers, Quiet, Advance;
    if CanAdvance(stream, s) {
      AdvanceKeeps(stream, s);
      AdvanceRemembers(stream, s);
      AdvanceMoves(stream, s);
      ScanRemembers(stream, Advance(stream, s));
    }
  }

  /** The cuts of a recording are those of its first pauses, one after the other, and no pause is
      left behind the last one. */
  lemma CutsAreFirstPauses(stream: Bytes)
    ensures var s := Scan(stream, START);
            && FirstPauses(stream, s.cuts)
            && s.committed == LastCut(s.cuts)
            && forall e: nat :: s.committed < e <= |stream| && Aligned(e) ==> !PauseAt(stream, s.committed, e)
  {
    hide Quiet, QuietBetween, Scan, PauseAt, Spaced, SafeCut;
    StartRemembers(stream);
    ScanRemembers(stream, START);
    var s := Scan(stream, START);
    PositionsAlign(stream, s);
    forall e: nat | s.committed < e <= |stream| && Aligned(e)
      ensures !PauseAt(stream, s.committed, e)
    {
      if e > s.committed + s.scanned {
        BeyondScan(s.committed + s.scanned, e, |stream|);
        assert false;
      }
    }
  }

  lemma BeyondScan(at: nat, e: nat, size: nat)
    requires Aligned(at) && Aligned(e) && at < e <= size
    ensures at + FRAME <= size
  {}

  lemma StartRemembers(stream: Bytes)
    ensures ScannerOk(stream, START) && Remembers(stream, START)
  {
    hide Quiet, PauseAt;
    NothingBetween(stream, 0);
  }

  // ----- The stream itself ------------------------------------------------------------------------------

  /** The file as one poll finds it: where its samples start if the header is complete, its
      size and its bytes; the size and the bytes are looked up one after the other. */
  datatype Recording = Recording(offset: Option<nat>, size: int, content: Bytes)

  /** `recording` is None where the file cannot be read. */
  datatype Poll = Poll(cancelled: bool, recording: Option<Recording>)

  /** None is an exception of the recognizer. */
  type Decoder = Bytes -> Option<string>

  function Chunk(content: Bytes, from: nat): (r: Bytes)
    ensures |r| <= MAX_PENDING
  {
    if from >= |content| then []
    else if from + MAX_PENDING < |content| then content[from..from + MAX_PENDING] else content[from..]
  }

  /** The file is a beginning of `recording`, and its samples start at `start`. */
  predicate PartOf(p: Poll, start: nat, recording: Bytes) {
    p.recording.Some? ==> p.recording.value.content <= recording && p.recording.value.offset in {None, Some(start)}
  }

  /** The file only grows, to `recording`. */
  ghost predicate Grows(polls: seq<Poll>, start: nat, recording: Bytes) {
    forall p :: p in polls ==> PartOf(p, start, recording)
  }

  /** The poll could not be read, or found more behind `seen` than may be waiting. */
  predicate Unusable(p: Poll, seen: int) {
    p.recording.None? || p.recording.value.size - seen > MAX_PENDING
  }

  /** What was read begins with all of `content` from `start` on. */
  predicate ReadAll(stream: Bytes, start: nat, content: Bytes) {
    start + |stream| >= |content| && (start <= |content| ==> stream[..|content| - start] == content[start..])
  }

  /** A poll whose header was complete and whose size was true was read to its end. */
  predicate Reached(p: Poll, stream: Bytes, start: nat) {
    p.recording.Some? && p.recording.value.offset.Some? && p.recording.value.size == |p.recording.value.content| ==>
      ReadAll(stream, start, p.recording.value.content)
  }

  lemma ChunkExtends(before: Bytes, content: Bytes, start: nat, recording: Bytes)
    requires content <= recording
    requires before != [] ==> start + |before| <= |recording| && before == recording[start..start + |before|]
    ensures var after := before + Chunk(content, start + |before|);
            after != [] ==> start + |after| <= |recording| && after == recording[start..start + |after|]
  {
    var chunk := Chunk(content, start + |before|);
    if chunk != [] {
      assert chunk == recording[start + |before|..start + |before| + |chunk|];
    }
  }

  lemma ChunkReaches(p: Poll, before: Bytes, start: nat, recording: Bytes)
    requires p.recording.Some? && p.recording.value.content <= recording
    requires p.recording.value.size - start - |before| <= MAX_PENDING
    requires before != [] ==> start + |before| <= |recording| && before == recording[start..start + |before|]
    ensures Reached(p, before + Chunk(p.recording.value.content, start + |before|), start)
  {
    var content := p.recording.value.content;
    var after := before + Chunk(content, start + |before|);
    ChunkExtends(before, content, start, recording);
    if p.recording.value.size == |content| && start <= |content| {
      assert after[..|content| - start] == recording[start..|content|];
      assert content[start..] == recording[start..|content|];
    }
  }

  datatype Buffers = Buffers(pending: Bytes, prefix: Bytes, readCount: nat, parts: seq<string>,
                             completedSnapshots: nat, digest: Bytes)

  /** The committed bytes are what was read first, and the text is their decoding. */
  ghost predicate Consistent(decoder: Decoder, stream: Bytes, b: Buffers, s: Scanner) {
    && stream == b.prefix + b.pending && b.readCount == |stream|
    && s.committed == |b.prefix| <= MAX_RECORDING && b.digest == b.prefix
    && ScannerOk(stream, s)
    && b.completedSnapshots == |s.cuts|
    && (if s.cuts == [] then b.parts == []
        else |b.parts| == 1 && b.parts[0] != "" && decoder(b.prefix) == Some(b.parts[0]))
  }

  lemma ConsistentBuffers(decoder: Decoder, stream: Bytes, b: Buffers, s: Scanner)
    requires Consistent(decoder, stream, b, s)
    ensures s.committed == |b.prefix| && stream == b.prefix + b.pending
  {
    hide ScannerOk;
  }

  lemma HeaderMissing(p: Poll, stream: Bytes, start: nat)
    requires p.recording.Some? && p.recording.value.offset.None?
    ensures Reached(p, stream, start)
  {}

  lemma ReadIsCounted(decoder: Decoder, stream: Bytes, b: Buffers, s: Scanner)
    requires Consistent(decoder, stream, b, s)
    ensures b.readCount == |stream|
  {
    hide ScannerOk;
  }

  lemma CommitKeeps(decoder: Decoder, stream: Bytes, b: Buffers, s: Scanner, text: string)
    requires Consistent(decoder, stream, b, s) && IsPause(s) && s.scanned <= |b.pending|
    requires |b.prefix| + s.scanned - RATE <= MAX_RECORDING
    requires text != "" && decoder(b.prefix + b.pending[..s.scanned - RATE]) == Some(text)
    ensures var part := b.pending[..s.scanned - RATE];
            Consistent(decoder, stream,
                       Buffers(b.pending[s.scanned - RATE..], b.prefix + part, b.readCount, [text],
                               b.completedSnapshots + 1, b.digest + part), Cut(s))
  {
    hide ScannerOk;
    CutKeeps(stream, s);
    SplitPending(b.prefix, b.pending, s.scanned - RATE);
  }

  class PauseStream {
    var pending: Bytes
    var prefix: Bytes
    var scanned: nat
    var silent: nat
    var speech: bool
    var offset: Option<nat>
    var readCount: nat
    var failed: bool
    var parts: seq<string>
    var completedSnapshots: nat
    var committed: nat
    /** The bytes that were hashed; equal digests stand for equal bytes. */
    var digest: Bytes
    /** Everything read so far, and the positions of the cuts. */
    ghost var stream: Bytes
    ghost var cuts: seq<nat>

    ghost function Now(): Scanner
      reads this
    {
      Scanner(committed, scanned, silent, speech, cuts)
    }

    ghost function Held(): Buffers
      reads this
    {
      Buffers(pending, prefix, readCount, parts, completedSnapshots, digest)
    }

    ghost predicate Sound(decoder: Decoder)
      reads this
    {
      Consistent(decoder, stream, Held(), Now())
    }

    /** The scan is on the one path that the recording determines. */
    ghost predicate Valid(decoder: Decoder)
      reads this
    {
      Sound(decoder) && (!failed ==> Scan(stream, Now()) == Scan(stream, START))
    }

    /** The pause that was reached cannot be used: the recording is too long, or the recognizer
        raises or hears nothing. */
    ghost predicate Undecodable(decoder: Decoder)
      reads this
    {
      && IsPause(Now()) && RATE <= scanned <= |pending| + RATE
      && (|prefix| + scanned - RATE > MAX_RECORDING ||
          decoder(prefix + pending[..scanned - RATE]) in {None, Some("")})
    }

    constructor (ghost decoder: Decoder)
      ensures Valid(decoder) && !failed && stream == []
    {
      pending, prefix, scanned, silent, speech, offset, readCount := [], [], 0, 0, false, None, 0;
      failed, parts, completedSnapshots, committed, digest := false, [], 0, 0, [];
      stream, cuts := [], [];
      new;
      NothingBetween([], 0);
    }

    /** The next part of the recording. */
    method Take(chunk: Bytes, ghost decoder: Decoder)
      requires Valid(decoder)
      modifies this`pending, this`readCount, this`stream
      ensures Valid(decoder) && stream == old(stream) + chunk && prefix == old(prefix)
    {
      hide ScannerOk, Scan;
      readCount := readCount + |chunk|;
      pending := pending + chunk;
      stream := stream + chunk;
      MoreKeeps(old(stream), chunk, Now());
      if !failed {
        SamePath(old(stream), chunk, Now());
      }
      assert stream == prefix + pending;
    }

    /** Looks at one frame, and decodes the recording so far where a pause is long enough;
        an exception ends the worker. */
    method LookAtFrame(decoder: Decoder) returns (ok: bool)
      requires Valid(decoder) && !failed && scanned + FRAME <= |pending|
      modifies this
      ensures stream == old(stream) && offset == old(offset)
      ensures Valid(decoder) && failed == !ok
      ensures ok ==> Now() == Advance(stream, old(Now()))
      ensures !ok ==> prefix == old(prefix) && Undecodable(decoder)
    {
      hide ScannerOk, Scan, Quiet;
      var frame := pending[scanned..scanned + FRAME];
      assert frame == stream[committed + scanned..committed + scanned + FRAME];
      LookKeeps(stream, Now());
      OnPath(stream, Now());
      var quiet := Quiet(frame);
      silent := if quiet then silent + FRAME else 0;
      speech := speech || !quiet;
      scanned := scanned + FRAME;
      assert Now() == Look(stream, old(Now()));
      ok := true;
      if speech && silent >= RATE * 2 && scanned >= RATE * 2 * 3 {
        ok := Commit(decoder);
      }
    }

    method Commit(decoder: Decoder) returns (ok: bool)
      requires Sound(decoder) && !failed && IsPause(Now()) && scanned <= |pending|
      modifies this
      ensures stream == old(stream) && offset == old(offset)
      ensures Sound(decoder) && failed == !ok
      ensures ok ==> Now() == Cut(old(Now())) && completedSnapshots == old(completedSnapshots) + 1
      ensures !ok ==> prefix == old(prefix) && Undecodable(decoder)
    {
      hide Consistent, Scan;
      var cut := scanned - RATE;
      ghost var before, at := Held(), Now();
      ConsistentBuffers(decoder, stream, before, at);
      var part := pending[..cut];
      if |prefix| + |part| > MAX_RECORDING {
        failed := true;
        return false;
      }
      var text := decoder(prefix + part);
      if text.None? || text.value == "" {
        failed := true;
        return false;
      }
      CommitKeeps(decoder, stream, before, at, text.value);
      prefix := prefix + part;
      pending := pending[cut..];
      scanned, silent, speech := 0, 0, false;
      Keep(part, text.value);
      assert Now() == Cut(at);
      return true;
    }

    method Keep(part: Bytes, text: string)
      modifies this`parts, this`completedSnapshots, this`digest, this`committed, this`cuts
      ensures parts == [text] && completedSnapshots == old(completedSnapshots) + 1
      ensures digest == old(digest) + part && committed == old(committed) + |part| && cuts == old(cuts) + [committed]
    {
      parts := [text];
      completedSnapshots := completedSnapshots + 1;
      digest := digest + part;
      committed := committed + |part|;
      cuts := cuts + [committed];
    }

    /** Scans what is there; `doneAfter` snapshots the recording is known to be over. */
    method ScanPending(decoder: Decoder, doneAfter: nat) returns (running: bool)
      requires Valid(decoder) && !failed
      modifies this
      ensures Valid(decoder) && stream == old(stream) && offset == old(offset)
      ensures running ==> !failed && Now() == Scan(stream, START)
      ensures !running ==> if failed then Undecodable(decoder) else completedSnapshots >= doneAfter
    {
      hide ScannerOk;
      while scanned + FRAME <= |pending|
        invariant Valid(decoder) && !failed && stream == old(stream) && offset == old(offset)
        decreases |stream| - committed, |stream| - committed - scanned
      {
        ghost var before := Now();
        var decoded := completedSnapshots;
        var ok := LookAtFrame(decoder);
        if !ok {
          return false;
        }
        AdvanceMoves(stream, before);
        if completedSnapshots > decoded && completedSnapshots >= doneAfter {
          return false;
        }
      }
      return true;
    }

    function Seen(): int
      reads this
    {
      (if offset.Some? then offset.value else 0) + readCount
    }

    /** What was read is the recording from its first sample on. */
    ghost predicate ReadFrom(start: nat, recording: Bytes)
      reads this
    {
      && offset in {None, Some(start)}
      && (stream != [] ==> start + |stream| <= |recording| && stream == recording[start..start + |stream|])
      && (offset.None? ==> stream == [])
    }

    /** Why the worker stops at a poll. */
    ghost predicate StopsFor(p: Poll, decoder: Decoder, doneAfter: nat)
      reads this
    {
      || p.cancelled
      || (!failed && completedSnapshots >= doneAfter)
      || (failed && (Undecodable(decoder) || |pending| > MAX_PENDING || Unusable(p, Seen())))
    }

    /** What the file has behind what was read. */
    method TakeChunk(poll: Poll, decoder: Decoder, ghost start: nat, ghost recording: Bytes)
      requires Valid(decoder) && poll.recording.Some? && offset.Some?
      requires poll.recording.value.size - offset.value - readCount <= MAX_PENDING
      modifies this`pending, this`readCount, this`stream
      ensures Valid(decoder)
      ensures PartOf(poll, start, recording) && old(ReadFrom(start, recording)) ==>
        ReadFrom(start, recording) && Reached(poll, stream, start)
    {
      hide ScannerOk, Scan, Consistent, Reached, Chunk;
      var content := poll.recording.value.content;
      ReadIsCounted(decoder, stream, Held(), Now());
      if PartOf(poll, start, recording) && ReadFrom(start, recording) {
        ChunkExtends(stream, content, start, recording);
        ChunkReaches(poll, stream, start, recording);
      }
      Take(Chunk(content, offset.value + readCount), decoder);
    }

    /** One poll: what the file has more than was read, and the scan of it. */
    method TakePoll(poll: Poll, decoder: Decoder, doneAfter: nat, ghost start: nat, ghost recording: Bytes)
      returns (running: bool)
      requires Valid(decoder) && !failed && Now() == Scan(stream, START)
      modifies this
      ensures Valid(decoder)
      ensures running ==> !failed && Now() == Scan(stream, START)
      ensures PartOf(poll, start, recording) && old(ReadFrom(start, recording)) ==>
        ReadFrom(start, recording) && (running ==> Reached(poll, stream, start))
      ensures !running ==> StopsFor(poll, decoder, doneAfter)
    {
      hide ScannerOk, Scan, Consistent, Undecodable, Reached;
      if poll.cancelled {
        return false;
      }
      if poll.recording.None? {
        failed := true;
        return false;
      }
      var found := poll.recording.value;
      if offset.None? {
        if found.offset.None? {
          HeaderMissing(poll, stream, start);
          return true;
        }
        offset := found.offset;
      }
      if found.size - offset.value - readCount > MAX_PENDING {
        failed := true;
        return false;
      }
      TakeChunk(poll, decoder, start, recording);
      if |pending| > MAX_PENDING {
        failed := true;
        return false;
      }
      running := ScanPending(decoder, doneAfter);
    }

    /** The worker: one poll after the other until the recording is over. `whole` says that every
        poll was taken. Of a file that only grows to `recording`, what is read is a part from its
        first sample on, all of what the last poll found if its size was true; the scan then
        stands where the scan of those bytes does. The worker stops early only for a reason. */
    method Run(polls: seq<Poll>, decoder: Decoder, doneAfter: nat, ghost start: nat, ghost recording: Bytes)
      returns (ghost whole: bool)
      requires Valid(decoder) && !failed && Now() == Scan(stream, START)
      modifies this
      ensures Valid(decoder)
      ensures Grows(polls, start, recording) && old(ReadFrom(start, recording)) ==> ReadFrom(start, recording)
      ensures whole ==> !failed && Now() == Scan(stream, START)
      ensures whole && Grows(polls, start, recording) && old(ReadFrom(start, recording)) && polls != [] ==>
        Reached(polls[|polls| - 1], stream, start)
      ensures !whole ==> exists p :: p in polls && StopsFor(p, decoder, doneAfter)
    {
      hide Sound, Scan, PartOf, ReadFrom, Reached, StopsFor;
      var i := 0;
      whole := false;
      while i < |polls|
        invariant 0 <= i <= |polls|
        invariant Valid(decoder) && !failed && Now() == Scan(stream, START)
        invariant Grows(polls, start, recording) && old(ReadFrom(start, recording)) ==>
          ReadFrom(start, recording) && (i > 0 ==> Reached(polls[i - 1], stream, start))
        decreases |polls| - i
      {
        var running := TakePoll(polls[i], decoder, doneAfter, start, recording);
        if !running {
          return;
        }
        i := i + 1;
      }
      whole := true;
    }

    /** Text is delivered exactly when nothing failed, something was decoded, the final recording
        starts with the decoded bytes, and what follows is as good as silent. */
    method Finish(workerEnded: bool, aborted: bool, pcm: Option<Bytes>, late: bool, ghost decoder: Decoder)
      returns (text: Option<string>)
      requires Valid(decoder)
      ensures text.Some? <==>
        && workerEnded && !failed && !aborted && !late && committed > 0 && pcm.Some?
        && prefix <= pcm.value && (pcm.value[committed..] == [] || QuietTail(pcm.value[committed..]))
      ensures text.Some? ==>
        && text == decoder(pcm.value[..committed])
        && committed == cuts[|cuts| - 1] && Aligned(committed)
        && (forall c :: c in cuts ==> SafeCut(stream, c)) && stream[..committed] == pcm.value[..committed]
    {
      hide QuietTail, Quiet, Scan;
      CommittedOrNot(stream, Now());
      if !workerEnded || failed || parts == [] || aborted || pcm.None? {
        return None;
      }
      var audio := pcm.value;
      if |audio| < committed || audio[..committed] != digest {
        return None;
      }
      var tail := audio[committed..];
      if tail != [] && !QuietTail(tail) {
        return None;
      }
      if late {
        return None;
      }
      return Some(parts[0]);
    }
  }

  lemma SplitPending(prefix: Bytes, pending: Bytes, cut: nat)
    requires cut <= |pending|
    ensures prefix + pending == prefix + pending[..cut] + pending[cut..]
  {}

  lemma CommittedOrNot(stream: Bytes, s: Scanner)
    requires ScannerOk(stream, s)
    ensures s.committed > 0 <==> s.cuts != []
  {
    hide Quiet;
  }

  lemma SamePath(part: Bytes, more: Bytes, s: Scanner)
    requires Scan(part, s) == Scan(part, START)
    ensures Scan(part + more, s) == Scan(part + more, START)
  {
    ChunksDoNotMatter(part, more, s);
    ChunksDoNotMatter(part, more, START);
  }

  lemma OnPath(stream: Bytes, s: Scanner)
    requires CanAdvance(stream, s)
    ensures Scan(stream, s) == Scan(stream, Advance(stream, s))
  {
    hide Quiet;
  }
}
