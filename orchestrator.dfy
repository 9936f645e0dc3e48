/**
 * The offline pipeline (`build_media_assets`): ask the generator for a
 * reply, turn its audio segments into a merged track with subtitles, an
 * animation driven by the track's loudness and a subtitled video, and
 * store the results under the output directory. Every stage is a
 * parameter; the method reports the calls it makes, in order, as a trace.
 */
module GenerateMedia {
  import opened Wrappers
  import Base64
  import Paths
  import Tts
  import Subtitles

  /** What `generator.run` returns: the optional `audio_data` list and the optional `emotion` mapping. */
  datatype GenResult = GenResult(audioData: Option<seq<Tts.Entry>>, emotion: Option<map<string, string>>)

  /** The returned dictionary. */
  datatype Assets = Assets(video: string, audio: string, srt: string, segments: string, emotion: map<string, string>)

  /** `ValueError("Generator returned no audio data to synthesize")`. */
  datatype BuildError = NoAudioData

  /** One effect of the pipeline, with its arguments. */
  datatype Call<G> =
    | MakeDirs(path: string)
    | LoadGrid(rows: int, folder: string)
    | Generate(userId: string, prompt: string)
    | MakeWorkDir(path: string)
    | DoTts(segments: seq<Subtitles.Segment>, workDir: string)
    | AudioAnalysis(audioPath: string)
    | CreateGridVideo(frames: seq<int>, grid: G, audioPath: string, workDir: string)
    | AddVidSubs(videoIn: string, srtFile: string, videoOut: string)
    | CopyFile(src: string, dst: string)
    | RemoveWorkDir(path: string)
    | WriteJson(path: string, result: GenResult)

  /** The stages that produce media. */
  predicate IsMediaStage<G>(c: Call<G>) {
    c.MakeWorkDir? || c.DoTts? || c.AudioAnalysis? || c.CreateGridVideo? || c.AddVidSubs? || c.CopyFile?
  }

  const VideoName := "response.mp4"
  const AudioName := "response.mp3"
  const SrtName := "response.srt"
  const SegmentsName := "response_segments.json"

  /** `{"text": seg["text"], "audio": seg["audio_base64"]}` for each generated segment. */
  function Serializable(entries: seq<Tts.Entry>): (segments: seq<Subtitles.Segment>)
    ensures |segments| == |entries|
  {
    seq(|entries|, i requires 0 <= i < |entries| => Subtitles.Segment(entries[i].text, entries[i].audioBase64))
  }

  /** The generator's reply carries something to synthesise. */
  predicate HasAudio(g: GenResult) {
    g.audioData.Some? && g.audioData.value != []
  }

  /** Where the calls of a successful build start: after setup, grid loading and generation. */
  function SetupLength<G>(grid: Option<G>): nat {
    if grid.None? then 3 else 2
  }

  method BuildMediaAssets<G>(prompt: string, userId: string, outputDir: string, workDir: string,
                             gridRows: int, gridFolder: string, grid: Option<G>,
                             loadGrid: (int, string) -> G,
                             generator: (string, string) -> GenResult,
                             doTts: (seq<Subtitles.Segment>, string) -> (string, string),
                             audioAnalysis: string -> seq<int>,
                             createGridVideo: (seq<int>, G, string, string) -> string)
    returns (r: Result<Assets, BuildError>, trace: seq<Call<G>>)
    // The output directory is created first; the grid is loaded once, and only when none is given.
    ensures |trace| >= SetupLength(grid) && trace[0] == MakeDirs(outputDir)
    ensures grid.None? ==> trace[1] == LoadGrid(gridRows, gridFolder)
    ensures forall k :: 0 <= k < |trace| && trace[k].LoadGrid? ==> grid.None? && k == 1
    // The generator runs exactly once, with the user and the prompt.
    ensures trace[SetupLength(grid) - 1] == Generate(userId, prompt)
    ensures forall k :: 0 <= k < |trace| && trace[k].Generate? ==> k == SetupLength(grid) - 1
    // No audio data: the error, before any media stage.
    ensures r.Err? <==> !HasAudio(generator(userId, prompt))
    ensures r.Err? ==> |trace| == SetupLength(grid) && forall k :: 0 <= k < |trace| ==> !IsMediaStage(trace[k])
    // Otherwise the stages in order, each fed the previous ones' results.
    ensures r.Ok? ==>
      var gen := generator(userId, prompt);
      var segments := Serializable(gen.audioData.value);
      var (mp3Path, srtPath) := doTts(segments, workDir);
      var frames := audioAnalysis(mp3Path);
      var g := if grid.Some? then grid.value else loadGrid(gridRows, gridFolder);
      var video := createGridVideo(frames, g, mp3Path, workDir);
      && trace[SetupLength(grid)..] ==
           [MakeWorkDir(workDir), DoTts(segments, workDir), AudioAnalysis(mp3Path), CreateGridVideo(frames, g, mp3Path, workDir),
            AddVidSubs(video, srtPath, Paths.Join(outputDir, VideoName)),
            CopyFile(mp3Path, Paths.Join(outputDir, AudioName)), CopyFile(srtPath, Paths.Join(outputDir, SrtName)),
            RemoveWorkDir(workDir), WriteJson(Paths.Join(outputDir, SegmentsName), gen)]
      && r.value == Assets(Paths.Join(outputDir, VideoName), Paths.Join(outputDir, AudioName),
                           Paths.Join(outputDir, SrtName), Paths.Join(outputDir, SegmentsName),
                           gen.emotion.GetOr(map[]))
  {
    trace := [MakeDirs(outputDir)];
    var g: G;
    if grid.None? {
      g := loadGrid(gridRows, gridFolder);
      trace := trace + [LoadGrid(gridRows, gridFolder)];
    } else {
      g := grid.value;
    }
    var result := generator(userId, prompt);
    trace := trace + [Generate(userId, prompt)];
    if result.audioData.None? || result.audioData.value == [] {
      return Err(NoAudioData), trace;
    }
    var mp3Output := Paths.Join(outputDir, AudioName);
    var srtOutput := Paths.Join(outputDir, SrtName);
    var videoOutput := Paths.Join(outputDir, VideoName);
    var segmentsOutput := Paths.Join(outputDir, SegmentsName);
    var segments := Serializable(result.audioData.value);

    var (mp3Path, srtPath) := doTts(segments, workDir);
    var frameSequence := audioAnalysis(mp3Path);
    var videoPath := createGridVideo(frameSequence, g, mp3Path, workDir);
    // The media stages run in this order, each on the results of the ones before.
    var stages := [MakeWorkDir(workDir), DoTts(segments, workDir), AudioAnalysis(mp3Path), CreateGridVideo(frameSequence, g, mp3Path, workDir),
                   AddVidSubs(videoPath, srtPath, videoOutput),
                   CopyFile(mp3Path, mp3Output), CopyFile(srtPath, srtOutput),
                   RemoveWorkDir(workDir), WriteJson(segmentsOutput, result)];
    var setup := trace;
    assert forall k :: 0 <= k < |stages| ==> !stages[k].LoadGrid? && !stages[k].Generate?;
    trace := setup + stages;
    assert trace[|setup|..] == stages;
    r := Ok(Assets(videoOutput, mp3Output, srtOutput, segmentsOutput, result.emotion.GetOr(map[])));
  }

  /** The four result files are four different paths under the output directory. */
  lemma OutputsDistinct(outputDir: string)
    ensures var names := [VideoName, AudioName, SrtName, SegmentsName];
            forall i, j :: 0 <= i < j < 4 ==> Paths.Join(outputDir, names[i]) != Paths.Join(outputDir, names[j])
  {
    var names := [VideoName, AudioName, SrtName, SegmentsName];
    forall i, j | 0 <= i < j < 4
      ensures Paths.Join(outputDir, names[i]) != Paths.Join(outputDir, names[j])
    {
      if Paths.Join(outputDir, names[i]) == Paths.Join(outputDir, names[j]) {
        Paths.JoinInjective(outputDir, names[i], names[j]);
      }
    }
  }

  /**
   * The segments handed to the merger keep the generator's order and text,
   * and each one's audio is the entry's base64 text unchanged.
   */
  lemma SerializableKeeps(entries: seq<Tts.Entry>, i: nat)
    requires i < |entries|
    ensures Serializable(entries)[i].text == entries[i].text
    ensures Serializable(entries)[i].audio == entries[i].audioBase64
  {
  }

  /**
   * Segments made from synthesised entries always decode: the merger gets
   * back exactly the WAV bytes of each chunk, so it can only fail at the
   * probe or at the concatenation.
   */
  lemma SynthesisedSegmentsDecode<A>(chunks: seq<Tts.Chunk<A>>, wav: (A, nat) -> seq<Base64.byte>,
                                     probe: seq<Base64.byte> -> Option<nat>, i: nat)
    requires i < |chunks|
    ensures var entries := seq(|chunks|, k requires 0 <= k < |chunks| => Tts.MakeEntry(k, chunks[k], wav));
            var s := Serializable(entries)[i];
            Base64.Decode(s.audio) == Ok(wav(chunks[i].audio, Tts.SampleRate))
            && (Subtitles.ProbeSegment(s, probe).Err? ==> Subtitles.ProbeSegment(s, probe).error == Subtitles.ProbeFailed)
  {
  }
}
