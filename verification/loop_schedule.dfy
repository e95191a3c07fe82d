/**
 The index arithmetic of the looping block producer: how one output block of
 `remaining` frames is cut into chunks that each copy a contiguous run of the
 sample buffer, how the read cursor wraps, and where every chunk lands.

 Nothing here mentions samples or gain; the Looping module pairs this
 schedule with the actual copy and with the gain-ramp endpoints.
 */
module LoopSchedule {

  /** One pass of the copy loop: `len` frames, read from buffer frame
      `srcPos` onward and written to output frame `outOffset` onward. */
  datatype Chunk = Chunk(outOffset: int, srcPos: int, len: int)

  function Min(a: int, b: int): int {
    if a < b then a else b
  }

  function Max0(a: int): nat {
    if a < 0 then 0 else a
  }

  /** The read cursor after consuming `len` frames from `pos` in a buffer of
      `n` frames: it is reset to 0 exactly when it reaches the end. */
  function Advance(n: int, pos: int, len: int): int {
    if pos + len == n then 0 else pos + len
  }

  /** Sum of the chunk lengths. */
  function Total(cs: seq<Chunk>): int {
    if cs == [] then 0 else cs[0].len + Total(cs[1..])
  }

  /** The chunks the copy loop performs for a block of `remaining` frames
      written from output frame `offset`, with the cursor at `pos` in a buffer
      of `n` frames. Each chunk copies min(frames still to write, frames left
      before the buffer end); the loop stops once nothing is left to write. */
  function Schedule(n: int, pos: int, offset: int, remaining: int): seq<Chunk>
    requires 0 <= pos < n
    decreases remaining
  {
    if remaining <= 0 then []
    else
      var len := Min(remaining, n - pos);
      var rest := Schedule(n, Advance(n, pos, len), offset + len, remaining - len);
      [Chunk(offset, pos, len)] + rest
  }

  /** Every chunk copies at least one frame and stays inside the buffer. */
  predicate ChunksInBuffer(cs: seq<Chunk>, n: int) {
    forall k :: 0 <= k < |cs| ==> 0 < cs[k].len && 0 <= cs[k].srcPos && cs[k].srcPos + cs[k].len <= n
  }

  /** The loop never copies an empty chunk and never reads past the buffer
      end. */
  lemma {:induction false} ScheduleInBuffer(n: int, pos: int, offset: int, remaining: int)
    requires 0 <= pos < n
    ensures ChunksInBuffer(Schedule(n, pos, offset, remaining), n)
    decreases remaining
  {
    if remaining > 0 {
      var len := Min(remaining, n - pos);
      var rest := Schedule(n, Advance(n, pos, len), offset + len, remaining - len);
      ScheduleInBuffer(n, Advance(n, pos, len), offset + len, remaining - len);
      var cs := Schedule(n, pos, offset, remaining);
      assert cs == [Chunk(offset, pos, len)] + rest;
      forall k | 1 <= k < |cs|
        ensures 0 < cs[k].len && 0 <= cs[k].srcPos && cs[k].srcPos + cs[k].len <= n
      {
        assert cs[k] == rest[k - 1];
      }
    }
  }

  /** The chunk lengths add up to the block length: the loop writes every
      requested frame exactly once (nothing when the block is empty). */
  lemma {:induction false} ScheduleTotal(n: int, pos: int, offset: int, remaining: int)
    requires 0 <= pos < n
    ensures Total(Schedule(n, pos, offset, remaining)) == Max0(remaining)
    decreases remaining
  {
    if remaining > 0 {
      var len := Min(remaining, n - pos);
      var rest := Schedule(n, Advance(n, pos, len), offset + len, remaining - len);
      ScheduleTotal(n, Advance(n, pos, len), offset + len, remaining - len);
      var cs := Schedule(n, pos, offset, remaining);
      assert cs == [Chunk(offset, pos, len)] + rest;
      assert cs[1..] == rest;
    }
  }

  /** A positive multiple of a positive length is at least that length. */
  lemma {:induction false} MulAtLeast(d: int, n: int)
    requires d >= 1 && n > 0
    ensures d * n >= n
    decreases d
  {
    if d > 1 {
      MulAtLeast(d - 1, n);
      assert d * n == (d - 1) * n + n;
    }
  }

  /** Euclidean remainder is determined by any quotient/remainder split. */
  lemma ModUnique(a: int, q: int, r: int, n: int)
    requires n > 0 && 0 <= r < n && a == q * n + r
    ensures a % n == r
  {
    var q', r' := a / n, a % n;
    assert a == q' * n + r';
    assert (q - q') * n == r' - r;
    if q > q' {
      MulAtLeast(q - q', n);
    } else if q < q' {
      MulAtLeast(q' - q, n);
    }
  }

  /** Moving `k` frames on from a cursor that does not reach the buffer end. */
  lemma ModShift(a: int, k: int, n: int)
    requires n > 0 && 0 <= k && a % n + k < n
    ensures (a + k) % n == a % n + k
  {
    ModUnique(a + k, a / n, a % n + k, n);
  }

  /** Moving exactly up to the buffer end lands on frame 0. */
  lemma ModWrap(a: int, k: int, n: int)
    requires n > 0 && a % n + k == n
    ensures (a + k) % n == 0
  {
    ModUnique(a + k, a / n + 1, 0, n);
  }

  /** The cursor after one chunk is the starting cursor moved on by the chunk
      length, modulo the buffer length. */
  lemma AdvanceIsMod(n: int, a: int, len: int)
    requires n > 0 && 0 < len && a % n + len <= n
    ensures Advance(n, a % n, len) == (a + len) % n
  {
    if a % n + len == n {
      ModWrap(a, len, n);
    } else {
      ModShift(a, len, n);
    }
  }

  /** The cursor moved on by one chunk, as (initial cursor + frames done)
      mod n. */
  lemma CursorStep(n: int, start: int, done: int, len: int)
    requires n > 0 && 0 < len && (start + done) % n + len <= n
    ensures Advance(n, (start + done) % n, len) == (start + (done + len)) % n
  {
    AdvanceIsMod(n, start + done, len);
    assert start + done + len == start + (done + len);
  }

  /** `done` are the chunks of `full` already performed, and what is left
      is the schedule from cursor `pos`, output frame `offset`, with
      `remaining` frames still to write. */
  ghost predicate SplitsSchedule(done: seq<Chunk>, n: int, pos: int, offset: int, remaining: int, full: seq<Chunk>)
    requires 0 <= pos < n
  {
    done + Schedule(n, pos, offset, remaining) == full
  }

  /** One iteration of the copy loop moves the current chunk from the
      schedule still to do onto the chunks done. */
  lemma ScheduleStep(done: seq<Chunk>, n: int, pos: int, offset: int, remaining: int, full: seq<Chunk>)
    requires 0 <= pos < n && remaining > 0
    requires SplitsSchedule(done, n, pos, offset, remaining, full)
    ensures var len := Min(remaining, n - pos);
            && 0 <= Advance(n, pos, len) < n
            && SplitsSchedule(done + [Chunk(offset, pos, len)], n, Advance(n, pos, len), offset + len, remaining - len, full)
  {
    var len := Min(remaining, n - pos);
    var rest := Schedule(n, Advance(n, pos, len), offset + len, remaining - len);
    assert Schedule(n, pos, offset, remaining) == [Chunk(offset, pos, len)] + rest;
    assert done + ([Chunk(offset, pos, len)] + rest) == (done + [Chunk(offset, pos, len)]) + rest;
  }

  /** Chunks are laid end to end: the first starts at the block offset with
      the initial cursor, each next one starts where the previous one ended,
      and the last one ends at the end of the block. */
  lemma {:induction false} ScheduleContiguous(n: int, pos: int, offset: int, remaining: int)
    requires 0 <= pos < n
    ensures var cs := Schedule(n, pos, offset, remaining);
            && (|cs| == 0 <==> remaining <= 0)
            && (|cs| > 0 ==> cs[0].outOffset == offset && cs[0].srcPos == pos)
            && (forall k :: 0 <= k < |cs| - 1 ==>
                  cs[k + 1].outOffset == cs[k].outOffset + cs[k].len
                  && cs[k + 1].srcPos == Advance(n, cs[k].srcPos, cs[k].len))
            && (|cs| > 0 ==> cs[|cs| - 1].outOffset + cs[|cs| - 1].len == offset + remaining)
    decreases remaining
  {
    if remaining > 0 {
      var len := Min(remaining, n - pos);
      var next := Advance(n, pos, len);
      var rest := Schedule(n, next, offset + len, remaining - len);
      ScheduleContiguous(n, next, offset + len, remaining - len);
      var cs := Schedule(n, pos, offset, remaining);
      assert cs == [Chunk(offset, pos, len)] + rest;
      forall k | 0 <= k < |cs| - 1
        ensures cs[k + 1].outOffset == cs[k].outOffset + cs[k].len
        ensures cs[k + 1].srcPos == Advance(n, cs[k].srcPos, cs[k].len)
      {
        if k > 0 {
          assert cs[k] == rest[k - 1] && cs[k + 1] == rest[k];
        }
      }
    }
  }

  /** Every chunk of `cs` is as long as the loop makes it when the block ends
      at output frame `end`: min(frames still to write, frames left in the
      buffer). */
  predicate ChunkLengthsAsLoop(cs: seq<Chunk>, n: int, end: int) {
    forall k :: 0 <= k < |cs| ==> cs[k].len == Min(end - cs[k].outOffset, n - cs[k].srcPos)
  }

  /** Every chunk copies exactly min(frames still to write, frames left in
      the buffer) frames. */
  lemma {:induction false} ScheduleChunkLength(n: int, pos: int, offset: int, remaining: int)
    requires 0 <= pos < n
    ensures ChunkLengthsAsLoop(Schedule(n, pos, offset, remaining), n, offset + remaining)
    decreases remaining
  {
    if remaining > 0 {
      var len := Min(remaining, n - pos);
      var next := Advance(n, pos, len);
      var rest := Schedule(n, next, offset + len, remaining - len);
      ScheduleChunkLength(n, next, offset + len, remaining - len);
      assert offset + len + (remaining - len) == offset + remaining;
      assert ChunkLengthsAsLoop(rest, n, offset + remaining);
      var cs := Schedule(n, pos, offset, remaining);
      assert cs == [Chunk(offset, pos, len)] + rest;
      forall k | 1 <= k < |cs|
        ensures cs[k].len == Min(offset + remaining - cs[k].outOffset, n - cs[k].srcPos)
      {
        assert cs[k] == rest[k - 1];
      }
    }
  }

  /** Only the first chunk can start mid-buffer and only the last can stop
      short of the end. */
  predicate WrapsBetweenChunks(cs: seq<Chunk>, n: int) {
    && (forall k :: 1 <= k < |cs| ==> cs[k].srcPos == 0)
    && (forall k :: 0 <= k < |cs| - 1 ==> cs[k].srcPos + cs[k].len == n)
  }

  /** Every chunk but the first reads from frame 0 and every chunk but the
      last runs to the end of the buffer. */
  lemma {:induction false} ScheduleWraps(n: int, pos: int, offset: int, remaining: int)
    requires 0 <= pos < n
    ensures WrapsBetweenChunks(Schedule(n, pos, offset, remaining), n)
    decreases remaining
  {
    if remaining > 0 {
      var len := Min(remaining, n - pos);
      var next := Advance(n, pos, len);
      var rest := Schedule(n, next, offset + len, remaining - len);
      ScheduleWraps(n, next, offset + len, remaining - len);
      var cs := Schedule(n, pos, offset, remaining);
      assert cs == [Chunk(offset, pos, len)] + rest;
      if |rest| > 0 {
        assert len == n - pos && next == 0;
        assert rest[0].srcPos == 0;
      }
      forall k | 1 <= k < |cs|
        ensures cs[k].srcPos == 0
      {
        assert cs[k] == rest[k - 1];
      }
      forall k | 0 <= k < |cs| - 1
        ensures cs[k].srcPos + cs[k].len == n
      {
        if k > 0 {
          assert cs[k] == rest[k - 1];
        }
      }
    }
  }

  /** Every chunk of `cs` reads from the buffer frame `shift + outOffset`
      modulo `n`: the source frame is a fixed distance from the output frame. */
  predicate ReadsAtShift(cs: seq<Chunk>, n: int, shift: int)
    requires n > 0
  {
    forall k :: 0 <= k < |cs| ==> ReadsAt(cs[k], n, shift)
  }

  predicate ReadsAt(c: Chunk, n: int, shift: int)
    requires n > 0
  {
    c.srcPos == (shift + c.outOffset) % n
  }

  /** With the cursor at (shift + offset) mod n, each chunk reads from the
      frame that lies as far past the initial cursor as its output frame lies
      past the block start, modulo the buffer length. */
  lemma {:induction false} ScheduleReadsAtShift(n: int, pos: int, offset: int, remaining: int, shift: int)
    requires 0 <= pos < n && pos == (shift + offset) % n
    ensures ReadsAtShift(Schedule(n, pos, offset, remaining), n, shift)
    decreases remaining
  {
    if remaining > 0 {
      var len := Min(remaining, n - pos);
      var next := Advance(n, pos, len);
      var rest := Schedule(n, next, offset + len, remaining - len);
      AdvanceIsMod(n, shift + offset, len);
      ScheduleReadsAtShift(n, next, offset + len, remaining - len, shift);
      var cs := Schedule(n, pos, offset, remaining);
      assert cs == [Chunk(offset, pos, len)] + rest;
      forall k | 1 <= k < |cs|
        ensures ReadsAt(cs[k], n, shift)
      {
        assert cs[k] == rest[k - 1];
      }
    }
  }

  /** The cursor the loop leaves after the last chunk of `cs` is `cursor`. */
  predicate EndsWithCursor(cs: seq<Chunk>, n: int, cursor: int) {
    |cs| > 0 ==> Advance(n, cs[|cs| - 1].srcPos, cs[|cs| - 1].len) == cursor
  }

  /** The cursor left after the last chunk is (initial cursor + block
      length) mod n. */
  lemma {:induction false} ScheduleFinalCursor(n: int, pos: int, offset: int, remaining: int, shift: int)
    requires 0 <= pos < n && pos == (shift + offset) % n
    ensures EndsWithCursor(Schedule(n, pos, offset, remaining), n, (shift + offset + remaining) % n)
    decreases remaining
  {
    if remaining > 0 {
      var len := Min(remaining, n - pos);
      var next := Advance(n, pos, len);
      var rest := Schedule(n, next, offset + len, remaining - len);
      var cs := Schedule(n, pos, offset, remaining);
      assert cs == [Chunk(offset, pos, len)] + rest;
      if |rest| > 0 {
        assert cs[|cs| - 1] == rest[|rest| - 1];
        var end := shift + offset + remaining;
        assert EndsWithCursor(rest, n, end % n) by {
          assert next == (shift + (offset + len)) % n by {
            AdvanceIsMod(n, shift + offset, len);
          }
          ScheduleFinalCursor(n, next, offset + len, remaining - len, shift);
          assert shift + (offset + len) + (remaining - len) == end;
        }
      } else {
        assert len == remaining;
        AdvanceIsMod(n, shift + offset, len);
      }
    }
  }

  /** A six-frame block from a four-frame buffer with the cursor at 0. It is copied as frames 0-3 and then frames 0-1 again,
      and the cursor ends at 2. */
  lemma FourFrameBufferSixFrameBlock()
    ensures Schedule(4, 0, 0, 6) == [Chunk(0, 0, 4), Chunk(4, 0, 2)]
    ensures Advance(4, 0, 4) == 0 && Advance(4, 0, 2) == 2
  {
    assert Schedule(4, 2, 6, 0) == [];
    assert Schedule(4, 0, 4, 2) == [Chunk(4, 0, 2)] + Schedule(4, 2, 6, 0);
  }
}
