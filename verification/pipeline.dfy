/**
 * `main` without its page: create `./temp`, and when a video was uploaded,
 * save it, extract its audio, split the audio into chunks of 80000 (seconds, as
 * `to_chunks` reads it), transcribe the chunks in order while showing the
 * growing transcript, and in every case clean the temporary directory up
 * afterwards.
 */
module Pipeline {
  import opened Options
  import opened Paths
  import opened MemoryGuard
  import opened ChunkPlan
  import opened Workspace
  import opened Splitter
  import opened Transcription

  /** The directory `create_temp_dir` uses by default. */
  const TEMP_DIR: string := "./temp"

  /** The chunk duration `main` passes to `to_chunks`. */
  const CHUNK_DURATION: nat := 80000

  /**
   * Everything the run depends on that the program does not compute: whether a
   * file was uploaded, the fresh name it is saved under, whether opening that
   * file for writing works and whether writing the upload into it then works,
   * the audio file name extraction produces (`None` when it fails), the duration
   * the decoder reports for that audio, the memory samples, whether each chunk
   * is written, what the recognizer says of each chunk, and whether each removal
   * succeeds.
   */
  datatype Env = Env(
    uploaded: bool,
    videoName: string,
    saveOpened: bool,
    saveWritten: bool,
    extracted: Option<string>,
    decoded: Option<Seconds>,
    rssAt: nat -> nat,
    write: Subclip -> bool,
    recognize: string -> Attempt,
    removeOk: string -> bool)

  /** How the run ends. */
  datatype JobEnd =
    | NoUpload                     // nothing uploaded: the page just waits
    | SaveFailed                   // opening or writing the upload file raised; reported as an error
    | ExtractFailed                // "Failed to extract audio."
    | SplitFailed                  // "Failed to split audio into chunks."
    | MemoryStopped                // the memory guard stopped the script
    | Completed(transcript: string)

  /** The end of the run, the texts shown while transcribing, and the temporary directory afterwards. */
  datatype JobResult = JobResult(end: JobEnd, shown: seq<string>, dir: Dir)

  /** What the `try` block of `main` does, and the directory listing when it is left. */
  datatype Stages = Stages(end: JobEnd, shown: seq<string>, files: seq<string>)

  /** The upload is saved: its file was opened for writing and the upload written into it. */
  predicate Saved(env: Env) {
    env.saveOpened && env.saveWritten
  }

  /**
   * The `try` block of `main`, from saving the upload to the last chunk. Opening
   * the upload file creates it, so a write that then fails leaves it behind for
   * the cleanup.
   */
  function RunStages(files: seq<string>, env: Env): Stages {
    if !env.saveOpened then Stages(SaveFailed, [], files)
    else
      var withVideo := AddFile(files, env.videoName);
      if !env.saveWritten then Stages(SaveFailed, [], withVideo)
      else if env.extracted.None? then Stages(ExtractFailed, [], withVideo)
      else
        var withAudio := AddFile(withVideo, env.extracted.value);
        var split := Split(true, env.decoded, CHUNK_DURATION, TEMP_DIR, env.rssAt, env.write, withAudio);
        match split.run
        case Stopped => Stages(MemoryStopped, [], split.files)
        case Chunked(paths) =>
          if paths == [] then Stages(SplitFailed, [], split.files)
          else Stages(Completed(Concat(Outcomes(paths, env.recognize))), Snapshots(paths, env.recognize), split.files)
  }

  /** The specification of `main`: the `try` block, then the `finally` cleanup. */
  function Job(dir0: Dir, env: Env): JobResult {
    var files := CreateTempDir(dir0);
    if !env.uploaded then JobResult(NoUpload, [], Present(files))
    else
      var stages := RunStages(files, env);
      JobResult(stages.end, stages.shown, AfterCleanup(Present(stages.files), env.removeOk))
  }

  /** `main`, given the temporary directory as it is before the run. */
  method RunJob(dir0: Dir, env: Env) returns (result: JobResult)
    ensures result == Job(dir0, env)
  {
    var files := CreateTempDir(dir0);
    if !env.uploaded {
      return JobResult(NoUpload, [], Present(files));
    }
    var end: JobEnd;
    var shown: seq<string> := [];
    if !env.saveOpened {
      end := SaveFailed;
    } else {
      files := AddFile(files, env.videoName);
      if !env.saveWritten {
        end := SaveFailed;
      } else if env.extracted.None? {
        end := ExtractFailed;
      } else {
        var audioName := env.extracted.value;
        files := AddFile(files, audioName);
        var split := ToChunks(audioName in files, env.decoded, CHUNK_DURATION, TEMP_DIR, env.rssAt, env.write, files);
        files := split.files;
        match split.run
        case Stopped =>
          end := MemoryStopped;
        case Chunked(paths) =>
          if paths == [] {
            end := SplitFailed;
          } else {
            var transcript;
            transcript, shown := TranscribeChunks(paths, env.recognize);
            end := Completed(transcript);
          }
      }
    }
    var dir := Cleanup(Present(files), env.removeOk);
    return JobResult(end, shown, dir);
  }

  /**
   * Nothing is transcribed unless the run completes: a failed save, a failed
   * extraction, an empty chunk list or the memory guard all stop it before the
   * first transcription.
   */
  lemma NoTranscriptionUnlessCompleted(dir0: Dir, env: Env)
    ensures var r := Job(dir0, env);
      !r.end.Completed? ==> r.shown == []
  {
  }

  /**
   * The run completes exactly when a video was uploaded and saved, its audio
   * was extracted and decoded, and every planned chunk passed the memory guard
   * and was written.
   */
  lemma CompletedIff(dir0: Dir, env: Env)
    ensures Job(dir0, env).end.Completed? <==>
      (env.uploaded && Saved(env) && env.extracted.Some? && env.decoded.Some? &&
       forall i :: 0 <= i < NumChunks(env.decoded.value, CHUNK_DURATION) ==>
         Passes(Plan(env.decoded.value, CHUNK_DURATION, TEMP_DIR), i, env.rssAt, env.write))
  {
    var files := CreateTempDir(dir0);
    if env.uploaded && Saved(env) && env.extracted.Some? {
      var withAudio := AddFile(AddFile(files, env.videoName), env.extracted.value);
      SplitSucceedsIff(true, env.decoded, CHUNK_DURATION, TEMP_DIR, env.rssAt, env.write, withAudio);
    }
  }

  /** The chunk list `to_chunks` hands to the transcript loop of `main`. */
  function SplitPaths(dir0: Dir, env: Env): seq<string>
    requires Saved(env) && env.extracted.Some?
  {
    var withAudio := AddFile(AddFile(CreateTempDir(dir0), env.videoName), env.extracted.value);
    var run := Split(true, env.decoded, CHUNK_DURATION, TEMP_DIR, env.rssAt, env.write, withAudio).run;
    if run.Chunked? then run.paths else []
  }

  /** A completed run shows the snapshots of the chunk list `to_chunks` returned. */
  lemma CompletedShowsSplit(dir0: Dir, env: Env)
    requires Job(dir0, env).end.Completed?
    ensures env.uploaded && Saved(env) && env.extracted.Some? && env.decoded.Some?
    ensures var paths := SplitPaths(dir0, env);
      var r := Job(dir0, env);
      |paths| == NumChunks(env.decoded.value, CHUNK_DURATION) >= 1 &&
      (forall i :: 0 <= i < |paths| ==> paths[i] == Join(TEMP_DIR, ChunkName(i))) &&
      r.shown == Snapshots(paths, env.recognize) &&
      r.end.transcript == Concat(Outcomes(paths, env.recognize))
  {
    var withAudio := AddFile(AddFile(CreateTempDir(dir0), env.videoName), env.extracted.value);
    SplitAllOrNothing(true, env.decoded, CHUNK_DURATION, TEMP_DIR, env.rssAt, env.write, withAudio);
  }

  /**
   * A completed run transcribes one chunk per planned chunk, in index order:
   * the text shown after chunk `i` is the outcomes of chunks `0 .. i`
   * concatenated, followed by `"."`, and the last text shown is the final
   * transcript followed by `"."`.
   */
  lemma CompletedTranscript(dir0: Dir, env: Env)
    requires Job(dir0, env).end.Completed?
    ensures env.decoded.Some?
    ensures var r := Job(dir0, env);
      var n := NumChunks(env.decoded.value, CHUNK_DURATION);
      var outs := seq(n, i requires 0 <= i < n => TranscribeAudio(env.recognize(Join(TEMP_DIR, ChunkName(i)))));
      |r.shown| == n >= 1 &&
      (forall i :: 0 <= i < n ==> r.shown[i] == Concat(outs[..i + 1]) + ".") &&
      r.end.transcript == Concat(outs) &&
      r.shown[n - 1] == r.end.transcript + "."
  {
    CompletedShowsSplit(dir0, env);
    ChunkTranscripts(SplitPaths(dir0, env), env.recognize, NumChunks(env.decoded.value, CHUNK_DURATION));
  }

  /** The texts shown for the chunk list `dir/video_chunk_0.mp4 .. video_chunk_{n-1}.mp4`. */
  lemma ChunkTranscripts(paths: seq<string>, recognize: string -> Attempt, n: nat)
    requires |paths| == n >= 1
    requires forall i :: 0 <= i < n ==> paths[i] == Join(TEMP_DIR, ChunkName(i))
    ensures var outs := seq(n, i requires 0 <= i < n => TranscribeAudio(recognize(Join(TEMP_DIR, ChunkName(i)))));
      var shown := Snapshots(paths, recognize);
      |shown| == n &&
      (forall i :: 0 <= i < n ==> shown[i] == Concat(outs[..i + 1]) + ".") &&
      Concat(Outcomes(paths, recognize)) == Concat(outs) &&
      shown[n - 1] == Concat(outs) + "."
  {
    var outs := seq(n, i requires 0 <= i < n => TranscribeAudio(recognize(Join(TEMP_DIR, ChunkName(i)))));
    assert Outcomes(paths, recognize) == outs;
    LastSnapshotIsTranscript(paths, recognize);
  }


  /**
   * Opening the upload file creates it: when writing the upload into it then
   * fails, the run ends as a failed save and the cleanup still meets that file,
   * so a failing removal of it keeps the directory. When the open itself fails
   * the cleanup meets only what was there before.
   */
  lemma FailedSaveLeavesUploadFile(dir0: Dir, env: Env)
    requires env.uploaded && !Saved(env)
    ensures var r := Job(dir0, env);
      var before := CreateTempDir(dir0);
      r.end == SaveFailed && r.shown == [] &&
      r.dir == AfterCleanup(Present(if env.saveOpened then AddFile(before, env.videoName) else before), env.removeOk)
    ensures var r := Job(dir0, env);
      env.saveOpened && !env.removeOk(env.videoName) ==> r.dir.Present? && env.videoName in r.dir.names
  {
    if env.saveOpened && !env.removeOk(env.videoName) {
      FailedRemovalKeepsFile(AddFile(CreateTempDir(dir0), env.videoName), env.removeOk, env.videoName);
    }
  }


  /**
   * The listing the cleanup walks names every file once, provided the
   * temporary directory did so before the run.
   */
  lemma CleanupListingNoDup(dir0: Dir, env: Env)
    requires NoDup(CreateTempDir(dir0))
    ensures NoDup(RunStages(CreateTempDir(dir0), env).files)
  {
    var before := CreateTempDir(dir0);
    var withVideo := AddFile(before, env.videoName);
    AddFileKeepsNoDup(before, env.videoName);
    if Saved(env) && env.extracted.Some? {
      var withAudio := AddFile(withVideo, env.extracted.value);
      AddFileKeepsNoDup(withVideo, env.extracted.value);
      if env.decoded.Some? {
        var plan := Plan(env.decoded.value, CHUNK_DURATION, TEMP_DIR);
        ChunkFilesNoDup(withAudio, FirstStop(plan, 0, env.rssAt, env.write));
      }
    }
  }

  /**
   * Once a video has been uploaded the `finally` block always runs, whatever the
   * run ends with, the memory guard included: when every removal succeeds the
   * temporary directory is gone afterwards. Without an upload nothing is removed.
   */
  lemma CleanupAfterUpload(dir0: Dir, env: Env)
    ensures env.uploaded && (forall x :: env.removeOk(x)) ==> Job(dir0, env).dir == Absent
    ensures !env.uploaded ==> Job(dir0, env).dir == Present(CreateTempDir(dir0))
  {
    if env.uploaded {
      var stages := RunStages(CreateTempDir(dir0), env);
      CleanupRemovesDirIff(Present(stages.files), env.removeOk);
    }
  }

  /**
   * The memory guard as `main` meets it: with a saved upload and decodable
   * audio, a sample above 1024 bytes before the first chunk stops the run before
   * any chunk is written or transcribed, and cleanup still runs.
   */
  lemma FirstSampleOverOneKiBStopsJob(dir0: Dir, env: Env)
    requires env.uploaded && Saved(env) && env.extracted.Some? && env.decoded.Some?
    requires env.rssAt(0) > 1024
    ensures var r := Job(dir0, env);
      r.end == MemoryStopped && r.shown == [] &&
      r.dir == AfterCleanup(Present(AddFile(AddFile(CreateTempDir(dir0), env.videoName), env.extracted.value)), env.removeOk)
  {
    var withAudio := AddFile(AddFile(CreateTempDir(dir0), env.videoName), env.extracted.value);
    FirstSampleOverOneKiBStops(env.decoded, CHUNK_DURATION, TEMP_DIR, env.rssAt, env.write, withAudio);
  }

  /**
   * `main` passes 80000 to `to_chunks`, which compares it with a duration in
   * seconds: any audio shorter than 80000 seconds is one chunk spanning all of it.
   */
  lemma ShortAudioIsOneChunk(d: Seconds)
    requires d < CHUNK_DURATION as real
    ensures NumChunks(d, CHUNK_DURATION) == 1
    ensures Start(0, CHUNK_DURATION) == 0.0 && End(0, CHUNK_DURATION, d) == d
  {
    NumChunksUnique(d, CHUNK_DURATION, 1);
    ChunksTile(d, CHUNK_DURATION);
  }
}
