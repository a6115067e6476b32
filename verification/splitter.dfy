/**
 * `to_chunks`: open the extracted audio with the decoder, then for each planned
 * chunk in index order check the memory guard, write the sub-clip and append its
 * path. Any failure other than the memory guard returns `[]`; the guard calls
 * `st.stop()`, whose exception is not an `Exception` and so leaves `to_chunks`
 * (and `main`'s handler) altogether.
 */
module Splitter {
  import opened Options
  import opened Paths
  import opened MemoryGuard
  import opened ChunkPlan
  import opened Workspace

  /** What a call of `to_chunks` ends with: a returned list of paths, or the guard's stop. */
  datatype ChunkRun = Chunked(paths: seq<string>) | Stopped

  /** The run and the names in the temporary directory once it ends. */
  datatype SplitOutcome = SplitOutcome(run: ChunkRun, files: seq<string>)

  /**
   * Chunk `i` of the plan goes through: the memory sample taken before it is
   * within the limit and its sub-clip is written.
   */
  predicate Passes(plan: seq<Subclip>, i: nat, rssAt: nat -> nat, write: Subclip -> bool)
    requires i < |plan|
  {
    !Exceeded(rssAt(i), MEMORY_LIMIT_GB) && write(plan[i])
  }

  /** The first chunk from `i` on that does not go through, or `|plan|` if none. */
  function FirstStop(plan: seq<Subclip>, i: nat, rssAt: nat -> nat, write: Subclip -> bool): (k: nat)
    requires i <= |plan|
    ensures i <= k <= |plan|
    ensures forall j :: i <= j < k ==> Passes(plan, j, rssAt, write)
    ensures k < |plan| ==> !Passes(plan, k, rssAt, write)
    decreases |plan| - i
  {
    if i == |plan| || !Passes(plan, i, rssAt, write) then i
    else FirstStop(plan, i + 1, rssAt, write)
  }

  /** The directory listing after chunks `0 .. k-1` have been written. */
  function WithChunkFiles(files: seq<string>, k: nat): seq<string> {
    if k == 0 then files else AddFile(WithChunkFiles(files, k - 1), ChunkName(k - 1))
  }

  /**
   * The specification of `to_chunks(audio_file, s, dir)`: the audio file must
   * exist, the decoder must open it and report its duration, and `duration // s`
   * must not divide by zero; then the chunks are written up to the first that
   * does not go through.
   */
  function Split(audioExists: bool, decoded: Option<Seconds>, s: nat, dir: string,
                 rssAt: nat -> nat, write: Subclip -> bool, files: seq<string>): SplitOutcome
  {
    if !audioExists || decoded.None? || s == 0 then SplitOutcome(Chunked([]), files)
    else
      var plan := Plan(decoded.value, s, dir);
      var k := FirstStop(plan, 0, rssAt, write);
      if k == |plan| then SplitOutcome(Chunked(ChunkPaths(dir, k)), WithChunkFiles(files, k))
      else if Exceeded(rssAt(k), MEMORY_LIMIT_GB) then SplitOutcome(Stopped, WithChunkFiles(files, k))
      else SplitOutcome(Chunked([]), WithChunkFiles(files, k))
  }

  /**
   * `to_chunks`. `audioExists` is `os.path.exists(audio_file)`, `decoded` the
   * decoder's duration (`None` when opening fails), `rssAt(i)` the memory sample
   * taken before chunk `i`, and `write` whether writing a sub-clip succeeds.
   * `files` lists the temporary directory before the call.
   */
  method ToChunks(audioExists: bool, decoded: Option<Seconds>, s: nat, dir: string,
                  rssAt: nat -> nat, write: Subclip -> bool, files: seq<string>)
    returns (out: SplitOutcome)
    ensures out == Split(audioExists, decoded, s, dir, rssAt, write, files)
  {
    if !audioExists || decoded.None? || s == 0 {
      return SplitOutcome(Chunked([]), files);
    }
    var duration := decoded.value;
    var numChunks := NumChunks(duration, s);
    ghost var plan := Plan(duration, s, dir);
    var chunks: seq<string> := [];
    var current := files;
    var i := 0;
    while i < numChunks
      invariant 0 <= i <= numChunks == |plan|
      invariant forall j :: 0 <= j < i ==> Passes(plan, j, rssAt, write)
      invariant chunks == ChunkPaths(dir, i)
      invariant current == WithChunkFiles(files, i)
    {
      if Exceeded(rssAt(i), MEMORY_LIMIT_GB) {
        FirstStopAt(plan, rssAt, write, i);
        return SplitOutcome(Stopped, current);
      }
      var startTime := Start(i, s);
      var endTime := End(i, s, duration);
      var chunkPath := Join(dir, ChunkName(i));
      PlanLayout(duration, s, dir, i);
      if !write(Subclip(startTime, endTime, chunkPath)) {
        FirstStopAt(plan, rssAt, write, i);
        return SplitOutcome(Chunked([]), current);
      }
      assert Passes(plan, i, rssAt, write);
      assert forall j :: 0 <= j < i + 1 ==> Passes(plan, j, rssAt, write);
      assert AddFile(current, ChunkName(i)) == WithChunkFiles(files, i + 1);
      assert chunks + [chunkPath] == ChunkPaths(dir, i + 1);
      current := AddFile(current, ChunkName(i));
      chunks := chunks + [chunkPath];
      i := i + 1;
    }
    return SplitOutcome(Chunked(chunks), current);
  }

  /** The first chunk that does not go through is the one after all that did. */
  lemma FirstStopAt(plan: seq<Subclip>, rssAt: nat -> nat, write: Subclip -> bool, i: nat)
    requires i < |plan|
    requires forall j :: 0 <= j < i ==> Passes(plan, j, rssAt, write)
    requires !Passes(plan, i, rssAt, write)
    ensures FirstStop(plan, 0, rssAt, write) == i
  {
  }

  /**
   * All or nothing: a returned list is either empty or holds exactly one path
   * per planned chunk, `dir/video_chunk_{i}.mp4` at position `i`, and then it
   * has at least one element.
   */
  lemma SplitAllOrNothing(audioExists: bool, decoded: Option<Seconds>, s: nat, dir: string,
                          rssAt: nat -> nat, write: Subclip -> bool, files: seq<string>)
    requires Split(audioExists, decoded, s, dir, rssAt, write, files).run.Chunked?
    ensures var paths := Split(audioExists, decoded, s, dir, rssAt, write, files).run.paths;
      paths == [] ||
      (audioExists && decoded.Some? && s > 0 &&
       |paths| == NumChunks(decoded.value, s) >= 1 &&
       forall i :: 0 <= i < |paths| ==> paths[i] == Join(dir, ChunkName(i)))
  {
    if audioExists && decoded.Some? && s > 0 {
      var n := NumChunks(decoded.value, s);
      NumChunksBounds(decoded.value, s);
      ChunkPathsLayout(dir, n);
    }
  }

  /**
   * A non-empty list comes back exactly when the audio file exists, the decoder
   * opens it, the chunk length is positive and every planned chunk passes the
   * memory guard and is written.
   */
  lemma SplitSucceedsIff(audioExists: bool, decoded: Option<Seconds>, s: nat, dir: string,
                         rssAt: nat -> nat, write: Subclip -> bool, files: seq<string>)
    ensures var run := Split(audioExists, decoded, s, dir, rssAt, write, files).run;
      (run.Chunked? && run.paths != []) <==>
      (audioExists && decoded.Some? && s > 0 &&
       forall i :: 0 <= i < NumChunks(decoded.value, s) ==> Passes(Plan(decoded.value, s, dir), i, rssAt, write))
  {
    if audioExists && decoded.Some? && s > 0 {
      var plan := Plan(decoded.value, s, dir);
      var k := FirstStop(plan, 0, rssAt, write);
      NumChunksBounds(decoded.value, s);
      if k < |plan| {
        assert !Passes(plan, k, rssAt, write);
      }
    }
  }

  /**
   * The guard's stop happens exactly at the first chunk that does not go
   * through, when that chunk's memory sample is over the limit; nothing after
   * it is written.
   */
  lemma SplitStopsAtFirstTrip(audioExists: bool, decoded: Option<Seconds>, s: nat, dir: string,
                              rssAt: nat -> nat, write: Subclip -> bool, files: seq<string>)
    ensures var out := Split(audioExists, decoded, s, dir, rssAt, write, files);
      out.run.Stopped? <==>
      (audioExists && decoded.Some? && s > 0 &&
       var k := FirstStop(Plan(decoded.value, s, dir), 0, rssAt, write);
       k < NumChunks(decoded.value, s) && Exceeded(rssAt(k), MEMORY_LIMIT_GB))
  {
  }

  /**
   * The chunk files that end up in the directory are those of the chunks
   * written before the run ended; nothing else is added.
   */
  lemma {:induction false} ChunkFilesWritten(files: seq<string>, k: nat, x: string)
    ensures x in WithChunkFiles(files, k) <==> x in files || exists i :: 0 <= i < k && x == ChunkName(i)
  {
    if k > 0 {
      ChunkFilesWritten(files, k - 1, x);
      var last := ChunkName(k - 1);
      if x == last {
        assert 0 <= k - 1 < k && x == ChunkName(k - 1);
      } else if exists i :: 0 <= i < k && x == ChunkName(i) {
        var i :| 0 <= i < k && x == ChunkName(i);
        assert i < k - 1;
      }
    }
  }

  /** Writing the chunk files keeps every name listed once. */
  lemma {:induction false} ChunkFilesNoDup(files: seq<string>, k: nat)
    requires NoDup(files)
    ensures NoDup(WithChunkFiles(files, k))
  {
    if k > 0 {
      ChunkFilesNoDup(files, k - 1);
      AddFileKeepsNoDup(WithChunkFiles(files, k - 1), ChunkName(k - 1));
    }
  }

  /**
   * With the limit the splitter uses, a memory sample above 1024 bytes before
   * the first chunk stops the run before any chunk is written.
   */
  lemma FirstSampleOverOneKiBStops(decoded: Option<Seconds>, s: nat, dir: string,
                                   rssAt: nat -> nat, write: Subclip -> bool, files: seq<string>)
    requires decoded.Some? && s > 0 && rssAt(0) > 1024
    ensures Split(true, decoded, s, dir, rssAt, write, files) == SplitOutcome(Stopped, files)
  {
    SplitterLimitTripsAboveOneKiB(rssAt(0));
    NumChunksBounds(decoded.value, s);
  }
}
