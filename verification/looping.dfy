/**
 The looping player: a short sample buffer loaded from a file and played
 round and round by the audio callback, with a level slider whose changes
 are smoothed by a gain ramp.

 Samples are an opaque type `T`; levels are `real` and the per-sample gain
 arithmetic is not modelled: a ramp is recorded only by its two endpoints.
 The float comparison `approximatelyEqual` is a parameter.
 */
module Looping {
  import opened LoopSchedule

  /** The gain ramp one chunk applies, on every output channel, across the
      chunk's output frames: `startGain` at its first frame, reaching
      `endGain` one frame past its last. */
  datatype Ramp = Ramp(chunk: Chunk, startGain: real, endGain: real)

  /** The looping component's state: the loaded buffer (channels x frames),
      the read cursor, the level written by the slider, the level the
      previous block ended on, and whether the audio device is calling
      back into the component. */
  datatype Looper<T> = Looper(
    fileBuffer: seq<seq<T>>,
    position: int,
    currentLevel: real,
    previousLevel: real,
    audioOn: bool)

  /** What the format manager returns for a chosen file: the decoded
      channels, and whether lengthInSamples / sampleRate < 2 held in single
      precision (the float division is not modelled). */
  datatype Reader<T> = Reader(samples: seq<seq<T>>, shorterThanTwoSeconds: bool)

  /** Frames per channel of a buffer (0 for a buffer with no channels). */
  function NumSamples<T>(b: seq<seq<T>>): int {
    if |b| == 0 then 0 else |b[0]|
  }

  /** All channels of the buffer have the same number of frames. */
  predicate Rectangular<T>(b: seq<seq<T>>) {
    forall c :: 0 <= c < |b| ==> |b[c]| == NumSamples(b)
  }

  /** A buffer and cursor the audio callback can loop over: at least one
      channel, at least one frame, the cursor on a frame. */
  predicate CanProduce<T>(lp: Looper<T>) {
    && Rectangular(lp.fileBuffer)
    && |lp.fileBuffer| > 0
    && NumSamples(lp.fileBuffer) > 0
    && 0 <= lp.position < NumSamples(lp.fileBuffer)
  }

  /** Whenever the device calls back into the component, the callback
      can loop over the buffer. */
  predicate Valid<T>(lp: Looper<T>) {
    lp.audioOn ==> CanProduce(lp)
  }

  /** The level a block's ramps start from: the new level when it is
      approximately the previous one, otherwise the previous level. */
  function StartLevel(approx: (real, real) -> bool, level: real, previous: real): (s: real)
    ensures approx(level, previous) ==> s == level
    ensures !approx(level, previous) ==> s == previous
  {
    if approx(level, previous) then level else previous
  }

  /** The pre-gain sample a looping buffer delivers on output channel `c`,
      `i` frames after the cursor `start`: input channel c mod channels,
      frame (start + i) mod frames. */
  function LoopedSample<T>(buf: seq<seq<T>>, c: int, start: int, i: int): T
    requires |buf| > 0 && Rectangular(buf) && NumSamples(buf) > 0 && 0 <= c
  {
    buf[c % |buf|][(start + i) % NumSamples(buf)]
  }

  /** One channel of a buffer copy: `num` frames of `src` from `srcStart`
      overwrite `dest` from `destStart`; nothing else in `dest` changes. */
  function CopyFrom<T>(dest: seq<T>, destStart: int, src: seq<T>, srcStart: int, num: int): (r: seq<T>)
    requires 0 <= destStart && 0 <= num && destStart + num <= |dest|
    requires 0 <= srcStart && srcStart + num <= |src|
    ensures |r| == |dest|
    ensures forall j :: 0 <= j < |r| ==>
              r[j] == (if destStart <= j < destStart + num then src[srcStart + (j - destStart)] else dest[j])
  {
    dest[..destStart] + src[srcStart..srcStart + num] + dest[destStart + num..]
  }

  /** One chunk of the copy loop, done for every output channel: output
      channel c receives input channel c mod (number of input channels). */
  function CopyChunk<T>(out: seq<seq<T>>, buf: seq<seq<T>>, ch: Chunk): (r: seq<seq<T>>)
    requires |buf| > 0 && Rectangular(buf)
    requires 0 <= ch.outOffset && 0 <= ch.len && 0 <= ch.srcPos && ch.srcPos + ch.len <= NumSamples(buf)
    requires forall c :: 0 <= c < |out| ==> ch.outOffset + ch.len <= |out[c]|
    ensures |r| == |out|
    ensures forall c :: 0 <= c < |out| ==> |r[c]| == |out[c]|
    ensures forall c, j :: 0 <= c < |out| && 0 <= j < |out[c]| ==>
              r[c][j] == (if ch.outOffset <= j < ch.outOffset + ch.len
                          then buf[c % |buf|][ch.srcPos + (j - ch.outOffset)]
                          else out[c][j])
  {
    seq(|out|, c requires 0 <= c < |out| =>
      CopyFrom(out[c], ch.outOffset, buf[c % |buf|], ch.srcPos, ch.len))
  }

  /** The ramps the callback applies: every chunk, including the ones after
      the cursor wrapped, ramps from the block's start level to its level. */
  function PerChunkRamps(cs: seq<Chunk>, startLevel: real, level: real): (rs: seq<Ramp>)
    ensures |rs| == |cs|
    ensures forall k :: 0 <= k < |rs| ==> rs[k].chunk == cs[k]
    ensures forall k :: 0 <= k < |rs| ==> rs[k].startGain == startLevel && rs[k].endGain == level
  {
    seq(|cs|, k requires 0 <= k < |cs| => Ramp(cs[k], startLevel, level))
  }

  lemma PerChunkRampsSnoc(cs: seq<Chunk>, ch: Chunk, startLevel: real, level: real)
    ensures PerChunkRamps(cs + [ch], startLevel, level)
            == PerChunkRamps(cs, startLevel, level) + [Ramp(ch, startLevel, level)]
  {
  }

  /** `filled` is `out` with the block's frames from `startSample` up to
      (not including) `upTo` replaced by the looped buffer read from the
      cursor `start`, on every output channel, and nothing else changed. */
  ghost predicate BlockFilled<T>(filled: seq<seq<T>>, out: seq<seq<T>>, buf: seq<seq<T>>,
                           start: int, startSample: int, upTo: int)
    requires |buf| > 0 && Rectangular(buf) && NumSamples(buf) > 0
  {
    && 0 <= startSample
    && |filled| == |out|
    && (forall c :: 0 <= c < |out| ==> |filled[c]| == |out[c]| && upTo <= |out[c]|)
    && (forall c, j :: 0 <= c < |out| && startSample <= j < upTo ==>
          filled[c][j] == LoopedSample(buf, c, start, j - startSample))
    && (forall c, j :: 0 <= c < |out| && 0 <= j < |out[c]| && !(startSample <= j < upTo) ==>
          filled[c][j] == out[c][j])
  }

  /** Inside a chunk that does not pass the buffer end, buffer frames are
      the looped frames of the block. */
  lemma ChunkIsLooped<T>(buf: seq<seq<T>>, start: int, done: int, pos: int, len: int, c: int, t: int)
    requires |buf| > 0 && Rectangular(buf) && NumSamples(buf) > 0 && 0 <= c
    requires pos == (start + done) % NumSamples(buf) && 0 <= t < len && pos + len <= NumSamples(buf)
    ensures buf[c % |buf|][pos + t] == LoopedSample(buf, c, start, done + t)
  {
    ModShift(start + done, t, NumSamples(buf));
    assert start + done + t == start + (done + t);
  }

  /** Copying the next chunk extends the filled part of the block by the
      chunk's length. */
  lemma CopyChunkExtends<T>(filled: seq<seq<T>>, out: seq<seq<T>>, buf: seq<seq<T>>,
                            start: int, startSample: int, ch: Chunk)
    requires |buf| > 0 && Rectangular(buf) && NumSamples(buf) > 0
    requires 0 <= startSample <= ch.outOffset && 0 < ch.len
    requires 0 <= ch.srcPos && ch.srcPos + ch.len <= NumSamples(buf)
    requires ch.srcPos == (start + (ch.outOffset - startSample)) % NumSamples(buf)
    requires forall c :: 0 <= c < |out| ==> ch.outOffset + ch.len <= |out[c]|
    requires BlockFilled(filled, out, buf, start, startSample, ch.outOffset)
    ensures forall c :: 0 <= c < |filled| ==> ch.outOffset + ch.len <= |filled[c]|
    ensures BlockFilled(CopyChunk(filled, buf, ch), out, buf, start, startSample, ch.outOffset + ch.len)
  {
    var r := CopyChunk(filled, buf, ch);
    forall c, j | 0 <= c < |out| && ch.outOffset <= j < ch.outOffset + ch.len
      ensures r[c][j] == LoopedSample(buf, c, start, j - startSample)
    {
      ChunkIsLooped(buf, start, ch.outOffset - startSample, ch.srcPos, ch.len, c, j - ch.outOffset);
    }
  }

  /** The audio callback. It splits the requested block into chunks that
      each copy min(frames still to write, frames left before the buffer
      end), copies each chunk on every output channel from input channel
      (channel mod input channels), gives each chunk a gain ramp, advances
      the cursor and wraps it to 0 on reaching the buffer end; afterwards
      the previous level becomes the level read at the start of the block. */
  method GetNextAudioBlock<T>(lp: Looper<T>, approx: (real, real) -> bool,
                              out: seq<seq<T>>, startSample: int, numSamples: int)
    returns (next: Looper<T>, filled: seq<seq<T>>, ramps: seq<Ramp>)
    requires CanProduce(lp)
    requires 0 <= startSample
    requires forall c :: 0 <= c < |out| ==> startSample + Max0(numSamples) <= |out[c]|
    ensures next == lp.(position := (lp.position + Max0(numSamples)) % NumSamples(lp.fileBuffer),
                        previousLevel := lp.currentLevel)
    ensures CanProduce(next)
    ensures |filled| == |out| && forall c :: 0 <= c < |out| ==> |filled[c]| == |out[c]|
    ensures forall c, j :: 0 <= c < |out| && startSample <= j < startSample + numSamples ==>
              filled[c][j] == LoopedSample(lp.fileBuffer, c, lp.position, j - startSample)
    ensures forall c, j :: 0 <= c < |out| && 0 <= j < |out[c]| && !(startSample <= j < startSample + numSamples) ==>
              filled[c][j] == out[c][j]
    ensures |lp.fileBuffer| == 1 ==>
              forall c, j :: 0 <= c < |out| && startSample <= j < startSample + numSamples ==>
                filled[c][j] == filled[0][j]
    ensures ramps == PerChunkRamps(Schedule(NumSamples(lp.fileBuffer), lp.position, startSample, numSamples),
                                   StartLevel(approx, lp.currentLevel, lp.previousLevel), lp.currentLevel)
  {
    var buf := lp.fileBuffer;
    var n := NumSamples(buf);
    var level := lp.currentLevel;
    var startLevel := StartLevel(approx, level, lp.previousLevel);
    ghost var schedule := Schedule(n, lp.position, startSample, numSamples);

    var remaining := numSamples;
    var offset := startSample;
    var position := lp.position;
    filled := out;
    ramps := [];
    ghost var done: seq<Chunk> := [];
    ModUnique(lp.position, 0, lp.position, n);

    while remaining > 0
      invariant 0 <= offset - startSample <= Max0(numSamples)
      invariant remaining == numSamples - (offset - startSample)
      invariant 0 <= position < n
      invariant position == (lp.position + (offset - startSample)) % n
      invariant SplitsSchedule(done, n, position, offset, remaining, schedule)
      invariant ramps == PerChunkRamps(done, startLevel, level)
      invariant BlockFilled(filled, out, buf, lp.position, startSample, offset)
      decreases remaining
    {
      var bufferSamplesRemaining := n - position;
      var samplesThisTime := Min(remaining, bufferSamplesRemaining);
      var chunk := Chunk(offset, position, samplesThisTime);
      CopyChunkExtends(filled, out, buf, lp.position, startSample, chunk);
      ScheduleStep(done, n, position, offset, remaining, schedule);
      PerChunkRampsSnoc(done, chunk, startLevel, level);
      CursorStep(n, lp.position, offset - startSample, samplesThisTime);

      filled := CopyChunk(filled, buf, chunk);
      ramps := ramps + [Ramp(chunk, startLevel, level)];
      done := done + [chunk];
      remaining := remaining - samplesThisTime;
      offset := offset + samplesThisTime;
      position := position + samplesThisTime;
      if position == n {
        position := 0;
      }
    }
    next := lp.(position := position, previousLevel := level);
  }
}

