/**
 * The chunk arithmetic of `to_chunks`: from the total duration `d` of the
 * decoded audio (seconds) and the chunk duration `s`, the number of chunks is
 * `int(d // s) + 1`, and chunk `i` is the sub-clip `[i * s, min((i + 1) * s, d)]`
 * written to `video_chunk_{i}.mp4` in the temporary directory.
 */
module ChunkPlan {
  import opened Paths

  /** A duration in seconds, as the decoder reports it; never negative. */
  type Seconds = r: real | 0.0 <= r

  /** One planned sub-clip: its bounds in seconds and the path it is written to. */
  datatype Subclip = Subclip(start: real, end: real, path: string)

  lemma RealMulLe(a: real, b: real, c: real)
    requires a <= b && 0.0 < c
    ensures a * c <= b * c
  {
  }

  lemma RealMulLt(a: real, b: real, c: real)
    requires a < b && 0.0 < c
    ensures a * c < b * c
  {
  }

  lemma NatMulAsReal(a: int, b: int)
    ensures ((a * b) as real) == (a as real) * (b as real)
  {
  }

  /** `d // s` on a non-negative duration and a positive chunk length, with its bounds. */
  lemma FloorDivBounds(d: Seconds, s: nat)
    requires s > 0
    ensures var q := (d / (s as real)).Floor;
      0 <= q && ((q * s) as real) <= d < (((q + 1) * s) as real)
  {
    var r := s as real;
    var x := d / r;
    var q := x.Floor;
    var lo := q as real;
    var hi := (q + 1) as real;
    assert x * r == d;
    assert lo <= x < hi;
    RealMulLe(lo, x, r);
    RealMulLt(x, hi, r);
    NatMulAsReal(q, s);
    NatMulAsReal(q + 1, s);
    calc {
      ((q * s) as real);
      == lo * r;
      <= x * r;
      == d;
    }
    calc {
      d;
      == x * r;
      < hi * r;
      == (((q + 1) * s) as real);
    }
  }

  /** `num_chunks = int(duration // chunk_duration) + 1`: never fewer than one chunk. */
  function NumChunks(d: Seconds, s: nat): (n: nat)
    requires s > 0
    ensures n >= 1
  {
    FloorDivBounds(d, s);
    (d / (s as real)).Floor + 1
  }

  /** `start_time = i * chunk_duration`: never before the beginning of the audio. */
  function Start(i: nat, s: nat): (t: real)
    ensures 0.0 <= t
  {
    (i * s) as real
  }

  /**
   * `end_time = min((i + 1) * chunk_duration, duration)`: where the next chunk
   * would start, or the end of the audio when that comes first.
   */
  function End(i: nat, s: nat, d: Seconds): (t: real)
    ensures t <= d && t <= Start(i + 1, s)
    ensures t == d || t == Start(i + 1, s)
  {
    var hi := ((i + 1) * s) as real;
    if d < hi then d else hi
  }

  /** The sub-clips `to_chunks` writes, in index order. */
  function Plan(d: Seconds, s: nat, dir: string): seq<Subclip>
    requires s > 0
  {
    seq(NumChunks(d, s), i requires 0 <= i => Subclip(Start(i, s), End(i, s, d), Join(dir, ChunkName(i))))
  }

  /** The paths of chunks `0 .. k-1` under `dir`, in the order `to_chunks` appends them. */
  function ChunkPaths(dir: string, k: nat): seq<string> {
    if k == 0 then [] else ChunkPaths(dir, k - 1) + [Join(dir, ChunkName(k - 1))]
  }

  /** Position `i` of the appended list holds the path of chunk `i`. */
  lemma {:induction false} ChunkPathsAt(dir: string, k: nat, i: nat)
    requires i < k
    ensures |ChunkPaths(dir, k)| == k
    ensures ChunkPaths(dir, k)[i] == Join(dir, ChunkName(i))
  {
    if i < k - 1 {
      ChunkPathsAt(dir, k - 1, i);
    } else if k > 1 {
      ChunkPathsAt(dir, k - 1, 0);
    }
  }

  /** The appended list holds one path per chunk, chunk `i`'s at position `i`. */
  lemma ChunkPathsLayout(dir: string, k: nat)
    ensures |ChunkPaths(dir, k)| == k
    ensures forall i :: 0 <= i < k ==> ChunkPaths(dir, k)[i] == Join(dir, ChunkName(i))
  {
    if k > 0 {
      ChunkPathsAt(dir, k, 0);
    }
    forall i | 0 <= i < k
      ensures ChunkPaths(dir, k)[i] == Join(dir, ChunkName(i))
    {
      ChunkPathsAt(dir, k, i);
    }
  }

  lemma MulMonotone(a: nat, b: nat, s: nat)
    requires a <= b
    ensures a * s <= b * s
  {
  }

  /**
   * The chunk count is the one natural `n` with `(n - 1) * s <= d < n * s`:
   * every chunk but the last starts a whole chunk length before `d` or earlier,
   * and `n` chunk lengths reach past `d`. In particular there is always a chunk.
   */
  lemma NumChunksBounds(d: Seconds, s: nat)
    requires s > 0
    ensures NumChunks(d, s) >= 1
    ensures (((NumChunks(d, s) - 1) * s) as real) <= d < ((NumChunks(d, s) * s) as real)
  {
    FloorDivBounds(d, s);
  }

  /** No other count satisfies the bounds of `NumChunksBounds`. */
  lemma NumChunksUnique(d: Seconds, s: nat, m: nat)
    requires s > 0 && m >= 1
    requires (((m - 1) * s) as real) <= d < ((m * s) as real)
    ensures m == NumChunks(d, s)
  {
    var n := NumChunks(d, s);
    NumChunksBounds(d, s);
    if m < n {
      MulMonotone(m, n - 1, s);
    } else if m > n {
      MulMonotone(n, m - 1, s);
    }
  }

  /** A chunk that is not after the last starts no later than the last, and before its own end. */
  lemma StartBelowLast(i: nat, n: nat, s: nat)
    requires i < n
    ensures Start(i, s) <= ((n - 1) * s) as real
    ensures Start(i, s) <= ((i + 1) * s) as real
  {
    MulMonotone(i, n - 1, s);
    MulMonotone(i, i + 1, s);
  }

  /** Every chunk lies inside the audio: `0 <= start <= end <= d`. */
  lemma ChunkWithinAudio(d: Seconds, s: nat, i: nat)
    requires s > 0 && i < NumChunks(d, s)
    ensures 0.0 <= Start(i, s) <= End(i, s, d) <= d
  {
    var n := NumChunks(d, s);
    NumChunksBounds(d, s);
    StartBelowLast(i, n, s);
    assert Start(i, s) <= ((n - 1) * s) as real <= d;
  }

  /**
   * The chunks tile `[0, d]`: the first starts at 0, each ends where the next
   * begins, and the last ends exactly at `d`.
   */
  lemma ChunksTile(d: Seconds, s: nat)
    requires s > 0
    ensures Start(0, s) == 0.0
    ensures forall i :: 0 <= i < NumChunks(d, s) - 1 ==> End(i, s, d) == Start(i + 1, s)
    ensures End(NumChunks(d, s) - 1, s, d) == d
  {
    var n := NumChunks(d, s);
    NumChunksBounds(d, s);
    forall i | 0 <= i < n - 1
      ensures End(i, s, d) == Start(i + 1, s)
    {
      MulMonotone(i + 1, n - 1, s);
    }
  }

  /** Every chunk before the last is exactly one chunk length long. */
  lemma FullChunksBeforeLast(d: Seconds, s: nat, i: nat)
    requires s > 0 && i + 1 < NumChunks(d, s)
    ensures End(i, s, d) - Start(i, s) == s as real
  {
    NumChunksBounds(d, s);
    MulMonotone(i + 1, NumChunks(d, s) - 1, s);
  }

  /** Chunks never overlap: an earlier chunk ends no later than a later one starts. */
  lemma ChunksOrdered(d: Seconds, s: nat, i: nat, j: nat)
    requires s > 0 && i < j < NumChunks(d, s)
    ensures End(i, s, d) <= Start(j, s)
  {
    MulMonotone(i + 1, j, s);
  }

  /** Every instant of `[0, d]` falls inside some chunk. */
  lemma ChunkCovering(d: Seconds, s: nat, t: real) returns (i: nat)
    requires s > 0 && 0.0 <= t <= d
    ensures i < NumChunks(d, s)
    ensures Start(i, s) <= t <= End(i, s, d)
  {
    var n := NumChunks(d, s);
    NumChunksBounds(d, s);
    FloorDivBounds(t, s);
    var q := (t / (s as real)).Floor;
    if q < n - 1 {
      i := q;
      MulMonotone(q + 1, n - 1, s);
    } else {
      i := n - 1;
      MulMonotone(n - 1, q, s);
    }
  }

  /**
   * The last chunk is empty (`start == end == d`) exactly when `d` is the
   * multiple `(n - 1) * s` of the chunk length.
   */
  lemma LastChunkEmptyIff(d: Seconds, s: nat)
    requires s > 0
    ensures var n := NumChunks(d, s);
      Start(n - 1, s) == End(n - 1, s, d) <==> d == (((n - 1) * s) as real)
  {
    NumChunksBounds(d, s);
  }

  /**
   * A duration of exactly `k` chunk lengths yields `k + 1` chunks, the last of
   * which is the empty interval `[d, d]`.
   */
  lemma ExactMultipleHasEmptyLastChunk(k: nat, s: nat)
    requires s > 0
    ensures var d: Seconds := (k * s) as real;
      NumChunks(d, s) == k + 1 && Start(k, s) == d && End(k, s, d) == d
  {
    var d: Seconds := (k * s) as real;
    NumChunksBounds(d, s);
    NumChunksUnique(d, s, k + 1);
  }

  /** Chunk `i` is written to `video_chunk_{i}.mp4` under `dir`, with the bounds above. */
  lemma PlanLayout(d: Seconds, s: nat, dir: string, i: nat)
    requires s > 0 && i < NumChunks(d, s)
    ensures |Plan(d, s, dir)| == NumChunks(d, s)
    ensures Plan(d, s, dir)[i] == Subclip(Start(i, s), End(i, s, d), Join(dir, ChunkName(i)))
  {
  }

  /** 150 seconds in 60-second chunks: `[0, 60]`, `[60, 120]`, `[120, 150]`. */
  lemma ThreeChunksOf150Seconds()
    ensures NumChunks(150.0, 60) == 3
    ensures End(0, 60, 150.0) == 60.0 && End(1, 60, 150.0) == 120.0
    ensures Start(2, 60) == 120.0 && End(2, 60, 150.0) == 150.0
  {
    NumChunksUnique(150.0, 60, 3);
  }
}
