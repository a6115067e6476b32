# Transcribo: a verified model of the transcription pipeline

Transcribo turns an uploaded video into text. It saves the upload into the
temporary directory `./temp`, extracts the audio track, and cuts the audio into
chunks with `to_chunks`. It transcribes each chunk with `transcribe_audio` and
shows the transcript as it grows. Finally it removes the temporary files. This
project models that pipeline (`main.py`) in Dafny and proves its properties.

The modules follow the parts of the program:

- `Options` (`options.dfy`): the `Option` datatype for values that may be missing.
- `Paths` (`paths.dfy`): `str(i)`, POSIX `os.path.join`, and the chunk file name `video_chunk_{i}.mp4`.
- `MemoryGuard` (`memory_guard.dfy`): the threshold test of `check_memory_usage`.
- `ChunkPlan` (`chunk_plan.dfy`): the chunk count `int(d // s) + 1` and the bounds `[i*s, min((i+1)*s, d)]` of each chunk.
- `Splitter` (`splitter.dfy`): the loop of `to_chunks`, as a method proved against the function `Split`.
- `Transcription` (`transcription.dfy`): the outcome mapping of `transcribe_audio`, and the loop of `main` that builds the transcript.
- `Workspace` (`workspace.dfy`): the temporary directory as a value, and the cleanup loop of the `finally` block.
- `Pipeline` (`pipeline.dfy`): `main` from the upload to the cleanup, as the method `RunJob` proved against the function `Job`.

Things outside the program are inputs to the model:

- the decoder: the duration it reports, or `None` when it cannot open the file;
- the memory sampler: one resident-set sample in bytes before each chunk;
- writing each sub-clip: it succeeds or fails;
- the speech recognizer: one `Attempt` for each chunk path;
- saving the upload: opening its file for writing succeeds or fails, and then writing into it succeeds or fails;
- the file system's removals: each one succeeds or fails;
- the fresh `uuid4` file names.

Durations are exact `real` seconds, never negative.

Behaviour as written, which the model keeps:

- The count is `floor(d/s) + 1`, not `ceil(d/s)`. When `d` is an exact multiple of `s`, the last chunk is the empty interval `[d, d]` (`LastChunkEmptyIff`, `ExactMultipleHasEmptyLastChunk`).
- `main` passes `80000` to `to_chunks`, which compares it with a duration in seconds. So audio shorter than 80000 seconds is a single chunk (`ShortAudioIsOneChunk`).
- The guard divides the resident set size by `1024**1` and compares the result with a limit the code calls gigabytes. With `MEMORY_LIMIT_GB = 1` it stops any process larger than 1024 bytes (`SplitterLimitTripsAboveOneKiB`, `FirstSampleOverOneKiBStopsJob`).
- The guard stops the script with `st.stop()`. Streamlit's stop exception does not derive from `Exception`, so neither handler catches it: it ends both `to_chunks` and `main`, and only the `finally` cleanup still runs.
- Outcomes are appended with no separator. A failed chunk shows up as `[Inaudible response]` (`HelloThenInaudible`).
- Chunk files are not removed after they are transcribed. Only the final cleanup removes them.
- The cleanup stops at the first removal that raises. That file and every file after it stay, and so does the directory. Without an upload, nothing is cleaned up.

## Model

| member | source | states |
|---|---|---|
| `Paths.NatToString` | main.py:94 | `str(i)` is a non-empty string of decimal digits |
| `Paths.StringToNatInverse` | main.py:94 | round trip: reading back the decimal text of `i` gives `i` |
| `Paths.NatToStringInjective` | main.py:94 | different indices print differently |
| `Paths.JoinSpec` | main.py:94 | what `os.path.join(dir, name)` gives, as `Join` computes it: an absolute name on its own; a relative name after `dir` and a `/` unless `dir` is empty or already ends in one |
| `Paths.JoinPrefix` | main.py:94 | what precedes a relative name in a joined path: `dir` itself, then at most one character, and it is empty or ends in `/` |
| `Paths.JoinInjective` | main.py:94 | `os.path.join` of one directory with two relative names gives equal paths only when the names are equal |
| `Paths.ChunkNameInjective` | main.py:94 | `video_chunk_{i}.mp4` names different files for different `i` |
| `Paths.ChunkPathsDistinct` | main.py:94 | the paths written for two different chunk indices differ, so no chunk overwrites another |
| `MemoryGuard.Exceeded` | main.py:55-57 | the guard stops exactly when `rss / 1024 > limit`, that is when `rss > limit * 1024` bytes: it compares kibibytes with the limit |
| `MemoryGuard.SplitterLimitTripsAboveOneKiB` | main.py:55-57 | with `MEMORY_LIMIT_GB = 1` the guard trips exactly when `rss > 1024`; a 50 MiB process trips it |
| `MemoryGuard.DefaultLimitTripsAbove1536Bytes` | main.py:52-57 | called with its default `limit_gb=1.5`, the guard would trip exactly when `rss > 1536` bytes; the program never uses this default, since its only call passes `MEMORY_LIMIT_GB` |
| `MemoryGuard.ExceededMonotone` | main.py:57 | a larger sample trips the guard whenever a smaller one does |
| `ChunkPlan.NumChunks` | main.py:80 | `int(duration // chunk_duration) + 1` is never less than one chunk; `NumChunksBounds` and `NumChunksUnique` pin its value down |
| `ChunkPlan.Start` | main.py:89 | `start_time = i * chunk_duration` is never before the beginning of the audio |
| `ChunkPlan.End` | main.py:90 | `end_time = min((i + 1) * chunk_duration, duration)`: no later than the end of the audio nor the start of the next chunk, and equal to one of them |
| `ChunkPlan.FloorDivBounds` | main.py:80 | `q = d // s` satisfies `q >= 0` and `q*s <= d < (q+1)*s` |
| `ChunkPlan.NumChunksBounds` | main.py:80 | there is at least one chunk, and `(n-1)*s <= d < n*s` for the count `n` |
| `ChunkPlan.NumChunksUnique` | main.py:80 | no other count satisfies those bounds, so `n = floor(d/s) + 1` is determined by them |
| `ChunkPlan.ChunkWithinAudio` | main.py:89-90 | every chunk has `0 <= start <= end <= d` |
| `ChunkPlan.ChunksTile` | main.py:84-90 | the first chunk starts at 0, each chunk ends where the next starts, and the last ends at exactly `d` |
| `ChunkPlan.FullChunksBeforeLast` | main.py:89-90 | every chunk but the last is exactly `s` long |
| `ChunkPlan.ChunksOrdered` | main.py:89-90 | chunks do not overlap: an earlier chunk ends no later than a later one starts |
| `ChunkPlan.ChunkCovering` | main.py:84-90 | every instant of `[0, d]` lies in some chunk |
| `ChunkPlan.LastChunkEmptyIff` | main.py:80-90 | the last chunk is empty exactly when `d == (n-1)*s` |
| `ChunkPlan.ExactMultipleHasEmptyLastChunk` | main.py:80-90 | `d = k*s` gives `k+1` chunks, the last being `[d, d]` |
| `ChunkPlan.PlanLayout` | main.py:89-94 | by the definition of `Plan`: planned chunk `i` has bounds `[i*s, min((i+1)*s, d)]` and path `dir/video_chunk_{i}.mp4` |
| `ChunkPlan.ChunkPathsAt` | main.py:94-99 | after `k` appends, position `i` of the list holds chunk `i`'s path and the list has length `k` |
| `ChunkPlan.ChunkPathsLayout` | main.py:94-99 | the appended list has one path per index, in increasing index order |
| `ChunkPlan.ThreeChunksOf150Seconds` | main.py:80-90 | 150 s in 60 s chunks gives `[0,60]`, `[60,120]` and `[120,150]` |
| `Splitter.FirstStop` | main.py:84-99 | the result is the first chunk that fails the guard or its write; every chunk before it went through |
| `Splitter.ToChunks` | main.py:62-108 | the loop of `to_chunks` returns exactly what `Split` specifies and leaves the directory listing `Split` gives |
| `Splitter.SplitAllOrNothing` | main.py:74-108 | a returned list is either `[]` or has one path per planned chunk, `dir/video_chunk_{i}.mp4` at position `i`, and then at least one path; never a partial list |
| `Splitter.SplitSucceedsIff` | main.py:74-108 | a non-empty list comes back if and only if the file exists, the decoder opens it, `s > 0`, and every chunk passes the guard and is written |
| `Splitter.SplitStopsAtFirstTrip` | main.py:84-87 | corollary of the definition of `Split`, spelled out: the guard's stop happens if and only if the first chunk that does not go through has a sample over the limit |
| `Splitter.ChunkFilesWritten` | main.py:93-99 | the directory gains exactly the files of the chunks written before the run ended |
| `Splitter.ChunkFilesNoDup` | main.py:94-95 | writing the chunk files lists every name at most once when the directory did before |
| `Splitter.FirstSampleOverOneKiBStops` | main.py:84-87 | a first sample above 1024 bytes stops `to_chunks` before any chunk is written |
| `Transcription.TranscribeAudio` | main.py:111-141 | total (never raises); returns the recognized text on success and exactly `[Inaudible response]` on a missing file, `UnknownValueError`, `RequestError` or any other exception (opening, recording or the recognizer call) |
| `Transcription.TranscribeChunks` | main.py:183-196 | every chunk is transcribed in order; the transcript is the concatenation of all outcomes, and the text shown after chunk `i` is the outcomes of chunks `0..i` followed by `"."` |
| `Transcription.ConcatAppend` | main.py:189 | appending outcomes one at a time concatenates lists: `Concat(a + b) == Concat(a) + Concat(b)` |
| `Transcription.SnapshotsGrow` | main.py:186-196 | the transcript shown after chunk `i` is a prefix of every later one, so nothing shown is taken back |
| `Transcription.SnapshotStep` | main.py:186-196 | text `i` is text `i-1` (without its `"."`) plus chunk `i`'s text or the placeholder, plus `"."` |
| `Transcription.TranscriptSplits` | main.py:183-189 | the final transcript is the transcript of the first `k` chunks followed by that of the rest |
| `Transcription.LastSnapshotIsTranscript` | main.py:186-196 | the last text shown is the whole transcript followed by `"."` |
| `Transcription.SnapshotsOfTwo` | main.py:183-196 | for two chunks the texts shown are the first outcome plus `"."`, then both outcomes plus `"."` |
| `Transcription.HelloThenInaudible` | main.py:186-196 | "hello" then a chunk not understood shows `hello.` and then `hello[Inaudible response].` |
| `Workspace.CreateTempDir` | main.py:17-20 | the names in `./temp` once `create_temp_dir` has run: none when it was missing, else those already there |
| `Workspace.CreateTempDirIdempotent` | main.py:17-20 | creating the temporary directory again changes nothing |
| `Workspace.AddFile` | main.py:95 | writing a file adds exactly its name to the listing: the earlier names keep their order, and the listing grows by one exactly when the name is new |
| `Workspace.AddFileKeepsNoDup` | main.py:95 | writing a file never makes the listing name a file twice |
| `Workspace.FirstRemovalFailure` | main.py:207-210 | the result is the first listed file whose removal fails; every file before it was removed |
| `Workspace.Cleanup` | main.py:205-216 | the cleanup loop always returns, with the directory `AfterCleanup` specifies |
| `Workspace.CleanupRemovesDirIff` | main.py:205-216 | the directory is gone after cleanup if and only if it was absent or every listed file could be removed |
| `Workspace.CleanupLeavesFailedTail` | main.py:205-216 | when the directory stays, what remains is the listing from the first failed removal on, and every file before it was removed |
| `Workspace.FailedRemovalKeepsFile` | main.py:207-210 | a listed file whose removal fails is still there after the cleanup, and so is the directory |
| `Workspace.CleanupIdempotent` | main.py:205-216 | a second cleanup with the same removal outcomes changes nothing |
| `Pipeline.RunJob` | main.py:144-216 | `main` ends with exactly the result, shown texts and directory that `Job` specifies |
| `Pipeline.FailedSaveLeavesUploadFile` | main.py:157-210 | a save that fails ends the run with no text shown; when the upload file was opened before the write failed, the cleanup meets that file, and a failing removal of it keeps it and the directory |
| `Pipeline.CleanupListingNoDup` | main.py:205-210 | the listing the cleanup walks names every file once when the directory did before the run |
| `Pipeline.NoTranscriptionUnlessCompleted` | main.py:165-180 | corollary of the definition of `Job`, spelled out: a failed save or extraction, an empty chunk list, or a memory stop shows no transcript |
| `Pipeline.CompletedIff` | main.py:165-180 | the run completes if and only if a video was uploaded and saved, its audio was extracted and decoded, and every chunk passed the guard and was written |
| `Pipeline.CompletedShowsSplit` | main.py:175-196 | a completed run transcribes exactly the list `to_chunks` returned: one `video_chunk_{i}.mp4` per planned chunk, in order |
| `Pipeline.ChunkTranscripts` | main.py:183-196 | for the chunk list `video_chunk_0 .. video_chunk_{n-1}`, the texts shown are the prefixes of the per-chunk outcomes plus `"."`, the last being the whole transcript plus `"."` |
| `Pipeline.CompletedTranscript` | main.py:182-196 | a completed run shows one text per planned chunk; text `i` is the outcomes of `video_chunk_0..i` concatenated plus `"."`; the last text is the transcript plus `"."` |
| `Pipeline.CleanupAfterUpload` | main.py:154-216 | after an upload the cleanup runs on every path, the memory stop included, and removes the directory when every removal succeeds; without an upload nothing is removed |
| `Pipeline.FirstSampleOverOneKiBStopsJob` | main.py:52-59 | with decodable audio, a first sample above 1024 bytes stops the run before any chunk is written or transcribed, and the cleanup still runs |
| `Pipeline.ShortAudioIsOneChunk` | main.py:175 | with the chunk length 80000 that `main` passes, audio shorter than 80000 s is one chunk `[0, d]` |

## Left out

- The Streamlit page (title, uploader, spinners, messages, video preview, the text area), main.py:145-162 and 192-198. It is presentation only. The model keeps the texts passed to the text area as `shown`.
- `extract_audio` (main.py:23-49) is modelled only by its result: the name of the audio file it wrote, or `None`. Its file check and decoder calls are inside that input. Whether the decoder can open the `.mp3` it writes is a library question.
- moviepy decoding, sub-clipping and encoding, pydub, and `video.close`/`subclip.close`. The decoder's duration and each write's success are inputs. A write that fails leaves no partial file in the model.
- The speech_recognition library and the remote service. One `Attempt` per chunk path stands for the file check, the read and the service's answer.
- psutil sampling and `gc.collect()`. Memory samples are inputs.
- `uuid4()`: the saved video's name is an input. The audio file name comes from the extraction input.
- Floating-point rounding of `video.duration` and of `duration // chunk_duration`: durations are exact reals.
- Negative chunk durations: `s` is a natural. `s == 0` is modelled, and returns `[]` as the caught `ZeroDivisionError` does.
- `./temp` is shared between sessions, and other processes may change it meanwhile. The model treats the directory as owned by one run. It takes `os.listdir` to list names in creation order and each listed name to be a file that exists.
- `Workspace.Cleanup`: the final `os.rmdir` of the emptied directory is taken to succeed. A failing `rmdir` would be swallowed too.
- The `print` diagnostics (main.py:46, 48, 105, 107, 133, 135, 137, 139, 216) write only to the console and change no state the model keeps.
- Every foreign call is taken to return. The recognizer at main.py:121-130 is called with no timeout, so a service that never answers would hang the run; the model has no notion of time or of a call that never ends.
- `create_temp_dir`'s `os.mkdir` is taken to succeed. Exceptions from Streamlit calls inside `main`'s `try` block are not modelled.
