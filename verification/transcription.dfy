/**
 * `transcribe_audio` and the transcript loop of `main`. The recognizer (the
 * file check, reading the audio and the call to the remote service) is an
 * input: for each chunk path it reports one `Attempt`.
 */
module Transcription {

  /** What happens when one chunk file is transcribed. */
  datatype Attempt =
    | Missing                      // the file does not exist: FileNotFoundError
    | Unreadable                   // any other exception: opening, recording or the recognizer call
    | Recognized(text: string)     // the service returns this text
    | NotUnderstood                // the service raises UnknownValueError
    | RequestFailed                // the service raises RequestError

  /** The text that stands in for a chunk that could not be transcribed. */
  const INAUDIBLE: string := "[Inaudible response]"

  /**
   * `transcribe_audio`: the recognized text on success and the placeholder on
   * every failure. It is total, so it never raises.
   */
  function TranscribeAudio(a: Attempt): (r: string)
    ensures a.Recognized? ==> r == a.text
    ensures !a.Recognized? ==> r == INAUDIBLE
  {
    match a
    case Recognized(text) => text
    case _ => INAUDIBLE
  }

  /** The per-chunk outcomes, in chunk order. */
  function Outcomes(chunks: seq<string>, recognize: string -> Attempt): seq<string> {
    seq(|chunks|, i requires 0 <= i < |chunks| => TranscribeAudio(recognize(chunks[i])))
  }

  /** `""` followed by each outcome in turn, with no separator. */
  function Concat(outs: seq<string>): string {
    if outs == [] then "" else Concat(outs[..|outs| - 1]) + outs[|outs| - 1]
  }

  /** The text shown after each chunk: the transcript so far followed by `"."`. */
  function Snapshots(chunks: seq<string>, recognize: string -> Attempt): seq<string> {
    var outs := Outcomes(chunks, recognize);
    seq(|chunks|, i requires 0 <= i < |chunks| => Concat(outs[..i + 1]) + ".")
  }

  /**
   * The loop of `main` over the chunk paths: transcribe each, append its outcome
   * to the running transcript and show the transcript followed by `"."`.
   * Every chunk is transcribed, whatever the outcomes of the others.
   */
  method TranscribeChunks(chunks: seq<string>, recognize: string -> Attempt)
    returns (transcript: string, shown: seq<string>)
    ensures transcript == Concat(Outcomes(chunks, recognize))
    ensures shown == Snapshots(chunks, recognize)
  {
    ghost var outs := Outcomes(chunks, recognize);
    transcript := "";
    shown := [];
    var i := 0;
    while i < |chunks|
      invariant 0 <= i <= |chunks|
      invariant transcript == Concat(outs[..i])
      invariant |shown| == i
      invariant forall j :: 0 <= j < i ==> shown[j] == Concat(outs[..j + 1]) + "."
    {
      var chunkTranscription := TranscribeAudio(recognize(chunks[i]));
      assert outs[..i + 1][..i] == outs[..i];
      transcript := transcript + chunkTranscription;
      shown := shown + [transcript + "."];
      i := i + 1;
    }
    assert outs[..i] == outs;
  }

  /** Concatenation distributes over joining two lists of outcomes. */
  lemma {:induction false} ConcatAppend(a: seq<string>, b: seq<string>)
    ensures Concat(a + b) == Concat(a) + Concat(b)
    decreases |b|
  {
    if b == [] {
      assert a + b == a;
    } else {
      var b' := b[..|b| - 1];
      assert (a + b)[..|a + b| - 1] == a + b';
      ConcatAppend(a, b');
    }
  }

  /**
   * Snapshots only grow: the transcript shown after chunk `i` (without its
   * final `"."`) begins every later one, so nothing shown is ever taken back.
   */
  lemma SnapshotsGrow(chunks: seq<string>, recognize: string -> Attempt, i: nat, j: nat)
    requires i <= j < |chunks|
    ensures var shown := Snapshots(chunks, recognize);
      var earlier := shown[i][..|shown[i]| - 1];
      |earlier| <= |shown[j]| && shown[j][..|earlier|] == earlier
  {
    var outs := Outcomes(chunks, recognize);
    var shown := Snapshots(chunks, recognize);
    var upToI := Concat(outs[..i + 1]);
    var rest := Concat(outs[i + 1..j + 1]);
    assert outs[..j + 1] == outs[..i + 1] + outs[i + 1..j + 1];
    ConcatAppend(outs[..i + 1], outs[i + 1..j + 1]);
    assert shown[i] == upToI + ".";
    assert shown[i][..|shown[i]| - 1] == upToI;
    assert shown[j] == upToI + (rest + ".");
  }

  /** The last text shown is the whole transcript followed by `"."`. */
  lemma LastSnapshotIsTranscript(chunks: seq<string>, recognize: string -> Attempt)
    requires |chunks| >= 1
    ensures Snapshots(chunks, recognize)[|chunks| - 1] == Concat(Outcomes(chunks, recognize)) + "."
  {
    var outs := Outcomes(chunks, recognize);
    assert outs[..|chunks|] == outs;
  }

  /**
   * Snapshot `i` is snapshot `i - 1` (or nothing, for the first) with chunk
   * `i`'s outcome appended: its text, or the placeholder when it failed.
   */
  lemma SnapshotStep(chunks: seq<string>, recognize: string -> Attempt, i: nat)
    requires i < |chunks|
    ensures var shown := Snapshots(chunks, recognize);
      var before := if i == 0 then "" else shown[i - 1][..|shown[i - 1]| - 1];
      var a := recognize(chunks[i]);
      shown[i] == before + (if a.Recognized? then a.text else INAUDIBLE) + "."
  {
    var outs := Outcomes(chunks, recognize);
    assert outs[..i + 1][..i] == outs[..i];
    assert outs[..i + 1][i] == outs[i];
    assert Concat(outs[..i + 1]) == Concat(outs[..i]) + outs[i];
    if i > 0 {
      var prev := Snapshots(chunks, recognize)[i - 1];
      assert prev[..|prev| - 1] == Concat(outs[..i]);
    } else {
      assert outs[..i] == [];
    }
  }

  /**
   * The final transcript holds every chunk's outcome in order: it is the
   * transcript of the first `k` chunks followed by that of the rest.
   */
  lemma TranscriptSplits(chunks: seq<string>, recognize: string -> Attempt, k: nat)
    requires k <= |chunks|
    ensures Concat(Outcomes(chunks, recognize)) ==
      Concat(Outcomes(chunks[..k], recognize)) + Concat(Outcomes(chunks[k..], recognize))
  {
    var outs := Outcomes(chunks, recognize);
    assert outs == Outcomes(chunks[..k], recognize) + Outcomes(chunks[k..], recognize);
    ConcatAppend(Outcomes(chunks[..k], recognize), Outcomes(chunks[k..], recognize));
  }

  /** The texts shown for two chunks: the first outcome, then both, each followed by `"."`. */
  lemma SnapshotsOfTwo(a: string, b: string, recognize: string -> Attempt)
    ensures var x := TranscribeAudio(recognize(a));
      var y := TranscribeAudio(recognize(b));
      Snapshots([a, b], recognize) == [x + ".", x + y + "."]
  {
    var outs := Outcomes([a, b], recognize);
    var x, y := outs[0], outs[1];
    assert outs[..1] == [x] && outs[..2] == [x, y];
    assert Concat([x]) == x by {
      assert [x][..0] == [];
    }
    assert Concat([x, y]) == x + y by {
      assert [x, y][..1] == [x];
    }
    var shown := Snapshots([a, b], recognize);
    assert shown[0] == x + "." && shown[1] == x + y + ".";
  }

  /**
   * Two chunks, the first recognized as "hello" and the second not understood:
   * the text shown is "hello." and then "hello[Inaudible response]." — the
   * placeholder is appended directly, with no space.
   */
  lemma HelloThenInaudible(a: string, b: string, recognize: string -> Attempt)
    requires recognize(a) == Recognized("hello") && recognize(b) == NotUnderstood
    ensures Snapshots([a, b], recognize) == ["hello.", "hello[Inaudible response]."]
  {
    SnapshotsOfTwo(a, b, recognize);
    HelloTexts();
  }

  /** The two texts spelled out: the placeholder follows "hello" with no space. */
  lemma HelloTexts()
    ensures "hello" + "." == "hello."
    ensures "hello" + INAUDIBLE + "." == "hello[Inaudible response]."
  {
  }
}
