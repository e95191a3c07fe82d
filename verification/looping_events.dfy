/** The rest of the looping component: construction, the level slider,
    shutting the audio down, and the accept/reject branch that loads a
    chosen file; plus the looping and gain-ramp properties of the block
    producer. */
module LoopingEvents {
  import opened Wrappers
  import opened LoopSchedule
  import opened Looping

  /** The component as constructed: no buffer, audio not started, both
      levels 0. The cursor is never initialised; it holds an arbitrary
      `int`, given here as a parameter. */
  function Initial<T>(uninitialisedPosition: int): (lp: Looper<T>)
    ensures Valid(lp) && !lp.audioOn
    ensures lp.fileBuffer == [] && lp.currentLevel == 0.0 && lp.previousLevel == 0.0
  {
    Looper([], uninitialisedPosition, 0.0, 0.0, false)
  }

  /** The level slider's callback: the new level is read by the next block. */
  function SliderMoved<T>(lp: Looper<T>, value: real): (r: Looper<T>)
    ensures r.currentLevel == value
    ensures r.fileBuffer == lp.fileBuffer && r.position == lp.position
    ensures r.previousLevel == lp.previousLevel && r.audioOn == lp.audioOn
    ensures Valid(lp) ==> Valid(r)
  {
    lp.(currentLevel := value)
  }

  /** releaseResources: the buffer is resized to no channels and no frames. */
  function ReleaseResources<T>(lp: Looper<T>): (r: Looper<T>)
    ensures NumSamples(r.fileBuffer) == 0 && |r.fileBuffer| == 0
    ensures r == lp.(fileBuffer := r.fileBuffer)
  {
    lp.(fileBuffer := [])
  }

  /** Shutting the audio down (the open and clear buttons). When the
      device was running, detaching the component from it releases the
      component's resources, emptying the buffer; the device then no
      longer calls the component back. */
  function ShutdownAudio<T>(lp: Looper<T>): (r: Looper<T>)
    ensures !r.audioOn && Valid(r)
    ensures lp.audioOn ==> r.fileBuffer == []
    ensures !lp.audioOn ==> r == lp
    ensures r.position == lp.position && r.currentLevel == lp.currentLevel
    ensures r.previousLevel == lp.previousLevel
  {
    if lp.audioOn then ReleaseResources(lp).(audioOn := false) else lp
  }

  /** The open button shuts the audio down before the chooser appears. */
  function OpenButtonClicked<T>(lp: Looper<T>): (r: Looper<T>)
    ensures !r.audioOn && Valid(r)
    ensures lp.audioOn ==> r.fileBuffer == []
    ensures !lp.audioOn ==> r == lp
    ensures r.position == lp.position && r.currentLevel == lp.currentLevel
    ensures r.previousLevel == lp.previousLevel
  {
    ShutdownAudio(lp)
  }

  /** The clear button only shuts the audio down. */
  function ClearButtonClicked<T>(lp: Looper<T>): (r: Looper<T>)
    ensures !r.audioOn && Valid(r)
    ensures lp.audioOn ==> r.fileBuffer == []
    ensures !lp.audioOn ==> r == lp
    ensures r.position == lp.position && r.currentLevel == lp.currentLevel
    ensures r.previousLevel == lp.previousLevel
  {
    ShutdownAudio(lp)
  }

  /** The chooser's callback as written: no file or no reader changes
      nothing; a file that is not shorter than two seconds changes nothing;
      otherwise its samples become the buffer, the cursor goes to 0 and the
      audio is started with as many outputs as the file has channels. */
  function FileChosenAsWritten<T>(lp: Looper<T>, reader: Option<Reader<T>>): (r: Looper<T>)
    ensures reader.None? || !reader.value.shorterThanTwoSeconds ==> r == lp
    ensures reader.Some? && reader.value.shorterThanTwoSeconds ==>
              r.fileBuffer == reader.value.samples && r.position == 0 && r.audioOn
    ensures r.currentLevel == lp.currentLevel && r.previousLevel == lp.previousLevel
  {
    match reader
    case None => lp
    case Some(rd) =>
      if rd.shorterThanTwoSeconds then lp.(fileBuffer := rd.samples, position := 0, audioOn := true)
      else lp
  }

  /** A zero-length file is shorter than two seconds, so the gate as written
      accepts it and starts the audio on an empty buffer: the first chunk the
      callback computes for any block is then zero frames long, so its copy
      loop never makes progress. */
  lemma EmptyFileStartsAudioOnEmptyBuffer<T>()
    ensures var lp := FileChosenAsWritten(Initial<T>(0), Some(Reader([[]], true)));
            && lp.audioOn
            && !Valid(lp)
            && Min(1, NumSamples(lp.fileBuffer) - lp.position) == 0
  {
  }

  /** The chooser's callback with the gate the callback needs: a file is
      accepted only when it is shorter than two seconds AND has at least one
      channel and one frame; anything else changes nothing. */
  function FileChosen<T>(lp: Looper<T>, reader: Option<Reader<T>>): (r: Looper<T>)
    requires reader.Some? ==> Rectangular(reader.value.samples)
    ensures Valid(lp) ==> Valid(r)
    ensures r != lp ==> reader.Some? && reader.value.shorterThanTwoSeconds
    ensures reader.Some? && reader.value.shorterThanTwoSeconds
            && |reader.value.samples| > 0 && NumSamples(reader.value.samples) > 0 ==>
              r.fileBuffer == reader.value.samples && r.position == 0 && r.audioOn
    ensures reader.Some? && (|reader.value.samples| == 0 || NumSamples(reader.value.samples) == 0) ==> r == lp
    ensures r.currentLevel == lp.currentLevel && r.previousLevel == lp.previousLevel
  {
    match reader
    case None => lp
    case Some(rd) =>
      if rd.shorterThanTwoSeconds && |rd.samples| > 0 && NumSamples(rd.samples) > 0
      then lp.(fileBuffer := rd.samples, position := 0, audioOn := true)
      else lp
  }

  /** On every file the corrected gate accepts, it does what the gate as
      written does. */
  lemma FileChosenAgreesWhenNonEmpty<T>(lp: Looper<T>, reader: Option<Reader<T>>)
    requires reader.Some? ==> Rectangular(reader.value.samples)
    requires reader.Some? ==> |reader.value.samples| > 0 && NumSamples(reader.value.samples) > 0
    ensures FileChosen(lp, reader) == FileChosenAsWritten(lp, reader)
  {
  }

  /** Looping: the frame a full buffer length later is the same frame. */
  lemma LoopedSampleRepeats<T>(buf: seq<seq<T>>, c: int, start: int, i: int)
    requires |buf| > 0 && Rectangular(buf) && NumSamples(buf) > 0 && 0 <= c
    ensures LoopedSample(buf, c, start, i + NumSamples(buf)) == LoopedSample(buf, c, start, i)
  {
    var n := NumSamples(buf);
    var a := start + i;
    ModUnique(a + n, a / n + 1, a % n, n);
    assert start + (i + n) == a + n;
  }

  /** A block of exactly one buffer length is copied in one chunk when the
      cursor is at 0, and otherwise in two: from the cursor to the buffer
      end, then from frame 0 back up to the cursor. Either way the cursor
      ends where it started. */
  lemma FullLapReturnsCursor(n: int, pos: int, offset: int)
    requires 0 <= pos < n
    ensures pos == 0 ==> Schedule(n, pos, offset, n) == [Chunk(offset, 0, n)]
    ensures pos > 0 ==> Schedule(n, pos, offset, n) == [Chunk(offset, pos, n - pos), Chunk(offset + n - pos, 0, pos)]
    ensures EndsWithCursor(Schedule(n, pos, offset, n), n, pos)
  {
    assert Schedule(n, Advance(n, pos, n - pos), offset + n, 0) == [];
    if pos > 0 {
      assert Schedule(n, pos, offset + n, 0) == [];
      assert Schedule(n, 0, offset + n - pos, pos) == [Chunk(offset + n - pos, 0, pos)];
    }
  }

  /** Consecutive blocks continue each other sample-accurately: a block
      that starts where a block of `first` frames left the cursor delivers
      the frames that follow the earlier block's. */
  lemma ConsecutiveBlocksContinue<T>(buf: seq<seq<T>>, c: int, start: int, first: nat, i: int)
    requires |buf| > 0 && Rectangular(buf) && NumSamples(buf) > 0 && 0 <= c
    ensures LoopedSample(buf, c, (start + first) % NumSamples(buf), i)
            == LoopedSample(buf, c, start, first + i)
  {
    var n := NumSamples(buf);
    var a := start + first;
    var q := (a % n + i) / n;
    assert a == (a / n) * n + a % n;
    assert a % n + i == q * n + (a % n + i) % n;
    assert (a / n + q) * n == (a / n) * n + q * n;
    ModUnique(a + i, a / n + q, (a % n + i) % n, n);
    assert start + (first + i) == a + i;
  }

  /** The gain at frame `i` of one linear ramp from `a` to `b` across a
      block of `total` frames. */
  function GainAt(a: real, b: real, total: int, i: int): real
    requires total > 0
  {
    a + (b - a) * (i as real) / (total as real)
  }

  /** One linear ramp across the whole block: each chunk takes its
      own slice of a single linear ramp from `a` to `b` across the whole
      block, so the gain carries on across the buffer wrap. */
  function BlockRamps(cs: seq<Chunk>, a: real, b: real, startSample: int, total: int): (rs: seq<Ramp>)
    requires total > 0
    ensures |rs| == |cs|
    ensures forall k :: 0 <= k < |rs| ==> rs[k].chunk == cs[k]
  {
    seq(|cs|, k requires 0 <= k < |cs| =>
      Ramp(cs[k], GainAt(a, b, total, cs[k].outOffset - startSample),
                  GainAt(a, b, total, cs[k].outOffset + cs[k].len - startSample)))
  }

  /** A block-level ramp is at `a` on the block's first frame and at `b`
      one past its last. */
  lemma GainAtEnds(a: real, b: real, total: int)
    requires total > 0
    ensures GainAt(a, b, total, 0) == a && GainAt(a, b, total, total) == b
  {
    assert (b - a) * (total as real) / (total as real) == b - a;
  }

  /** The block-level ramps start at the block's start level, end at its
      level, and every chunk's ramp starts where the previous one ended. */
  lemma BlockRampsContinuous(n: int, pos: int, startSample: int, numSamples: int, a: real, b: real)
    requires 0 <= pos < n && numSamples > 0
    ensures var rs := BlockRamps(Schedule(n, pos, startSample, numSamples), a, b, startSample, numSamples);
            && |rs| > 0
            && rs[0].startGain == a
            && rs[|rs| - 1].endGain == b
            && forall k :: 0 <= k < |rs| - 1 ==> rs[k].endGain == rs[k + 1].startGain
  {
    var cs := Schedule(n, pos, startSample, numSamples);
    ScheduleContiguous(n, pos, startSample, numSamples);
    GainAtEnds(a, b, numSamples);
    var rs := BlockRamps(cs, a, b, startSample, numSamples);
    assert rs[0].startGain == GainAt(a, b, numSamples, 0);
    var last := cs[|cs| - 1];
    assert rs[|rs| - 1].endGain == GainAt(a, b, numSamples, last.outOffset + last.len - startSample);
    forall k | 0 <= k < |rs| - 1
      ensures rs[k].endGain == rs[k + 1].startGain
    {
      assert cs[k].outOffset + cs[k].len - startSample == cs[k + 1].outOffset - startSample;
    }
  }

  /** When the block does not cross the buffer end the callback's ramps are
      the block-level ramps. */
  lemma RampsAgreeWithoutWrap(n: int, pos: int, startSample: int, numSamples: int, a: real, b: real)
    requires 0 <= pos < n && 0 < numSamples && pos + numSamples < n
    ensures PerChunkRamps(Schedule(n, pos, startSample, numSamples), a, b)
            == BlockRamps(Schedule(n, pos, startSample, numSamples), a, b, startSample, numSamples)
  {
    var cs := Schedule(n, pos, startSample, numSamples);
    assert Schedule(n, pos + numSamples, startSample + numSamples, 0) == [];
    assert cs == [Chunk(startSample, pos, numSamples)];
    GainAtEnds(a, b, numSamples);
  }

  /** The callback remembers the level it read as the previous level, so
      once the slider stops moving the next block starts from that level,
      whatever `approximatelyEqual` answers, and every one of its ramps is
      flat; a block whose level moved away from the previous one fades from
      the previous level. */
  lemma LevelSettlesAfterOneBlock<T>(lp: Looper<T>, approx: (real, real) -> bool, cs: seq<Chunk>)
    ensures var after := lp.(previousLevel := lp.currentLevel);
            var rs := PerChunkRamps(cs, StartLevel(approx, after.currentLevel, after.previousLevel), after.currentLevel);
            forall k :: 0 <= k < |rs| ==> rs[k].startGain == rs[k].endGain == lp.currentLevel
    ensures !approx(lp.currentLevel, lp.previousLevel) ==>
              var rs := PerChunkRamps(cs, StartLevel(approx, lp.currentLevel, lp.previousLevel), lp.currentLevel);
              forall k :: 0 <= k < |rs| ==> rs[k].startGain == lp.previousLevel && rs[k].endGain == lp.currentLevel
  {
  }

  /** As written, the callback restarts the ramp at every chunk: a block of
      four frames from cursor 2 in a four-frame buffer is copied in two
      chunks, and fading from 0 to 1 the first chunk ends at gain 1 while the
      second starts again at gain 0. */
  lemma PerChunkRampsJumpAtWrap()
    ensures var rs := PerChunkRamps(Schedule(4, 2, 0, 4), 0.0, 1.0);
            |rs| == 2 && rs[0].endGain == 1.0 && rs[1].startGain == 0.0
  {
    assert Schedule(4, 0, 2, 2) == [Chunk(2, 0, 2)] + Schedule(4, 2, 4, 0);
    assert Schedule(4, 2, 0, 4) == [Chunk(0, 2, 2), Chunk(2, 0, 2)];
  }
}
