/** The encoder stage: it derives the artifact's output path, runs the encoding engine
    once for a full-video rendition or a preview clip and twice for the thumbnail sheet
    (extract frames, then tile them), and announces the artifact once the runs succeed. */
module EncodeVideo {
  import opened Wrappers
  import opened Strings
  import opened EncodingIds
  import EC = EncodingContainers
  import opened Messages
  import opened Amqp

  /** The `encoding` part of the request the encoder consumes. */
  datatype EncodingSpec = EncodingSpec(id: EncodingId, container: EC.EncodingContainer, width: int, height: int, bitrate: int, fps: int)

  /** One engine invocation: input, input options, output options, output. */
  datatype EngineRun = EngineRun(input: string, inputOptions: seq<string>, outputOptions: seq<string>, output: string)

  datatype EncodeOutcome =
    | Completed   // every run finished; the artifact is announced
    | Rejected    // a run the action awaits failed; the action rejects
    | Unsettled   // the tiling run failed inside a completion callback; the action never settles

  /** `${sharedDirectory}/${videoId}-${encoding.id}.${encoding.container}`. */
  function OutputPath(sharedDirectory: string, videoId: string, spec: EncodingSpec): string {
    sharedDirectory + "/" + videoId + "-" + Value(spec.id) + "." + EC.Value(spec.container)
  }

  /** `/tmp/${videoId}_thumb%03d.png`: the frame files of the thumbnail branch. */
  function ThumbnailFramePattern(videoId: string): string {
    "/tmp/" + videoId + "_thumb%03d.png"
  }

  const ThumbnailFrameCap: nat := 800
  const ThumbnailTileColumns: nat := 20
  const ThumbnailTileRows: nat := 40

  /** The runs the action asks of the engine, in order. */
  function EncoderRuns(sharedDirectory: string, videoId: string, location: string, spec: EncodingSpec): (runs: seq<EngineRun>)
    ensures |runs| == (if IsThumbnailEncodingId(spec.id) then 2 else 1)
    ensures runs[|runs| - 1].output == OutputPath(sharedDirectory, videoId, spec)
    ensures runs[0].input == location
  {
    var outputPath := OutputPath(sharedDirectory, videoId, spec);
    var size := IntToString(spec.width) + "x" + IntToString(spec.height);
    var bitrate := "-b:v " + IntToString(spec.bitrate) + "k";
    var rate := "-r " + IntToString(spec.fps);
    if IsTranscodingEncodingId(spec.id) then
      [EngineRun(location, ["-y"], ["-s " + size, bitrate, rate], outputPath)]
    else if IsPreviewEncodingId(spec.id) then
      var scale := "scale=" + IntToString(spec.width) + ":" + IntToString(spec.height);
      [EngineRun(location, [], ["-y", "-ss 00:00:00", "-t 4", "-an", "-vf", scale, bitrate, rate], outputPath)]
    else
      var frames := ThumbnailFramePattern(videoId);
      [EngineRun(location, [], ["-y", "-vf", "fps=1/10,scale=320:240", "-frames:v 800"], frames),
       EngineRun(frames, [], ["-y", "-filter_complex", "tile=20x40"], outputPath)]
  }

  /** The runs attempted: up to and including the first that fails. */
  function Attempted(runs: seq<EngineRun>, failing: set<EngineRun>): (a: seq<EngineRun>)
    ensures |a| <= |runs| && a == runs[..|a|]
    ensures forall i :: 0 <= i < |a| - 1 ==> a[i] !in failing
    ensures a == runs || (a != [] && a[|a| - 1] in failing)
    decreases |runs|
  {
    if runs == [] then []
    else if runs[0] in failing then [runs[0]]
    else [runs[0]] + Attempted(runs[1..], failing)
  }

  /** How the action ends: the first run is awaited directly, later ones only inside the
      first run's completion callback. */
  function Settle(runs: seq<EngineRun>, failing: set<EngineRun>): EncodeOutcome {
    var a := Attempted(runs, failing);
    if a == runs && (a == [] || a[|a| - 1] !in failing) then Completed
    else if |a| == 1 then Rejected
    else Unsettled
  }

  /** Each id takes the branch its classification names, and no id is refused: the four
      resolutions get one sized, rate-limited run, the previews one four-second silent
      scaled clip from the start, and the thumbnail two runs whose tile grid holds exactly
      the frame cap. */
  lemma DispatchMatchesClassification(sharedDirectory: string, videoId: string, location: string, spec: EncodingSpec)
    ensures var runs := EncoderRuns(sharedDirectory, videoId, location, spec);
      match Classify(spec.id)
      case FullVideo =>
        && |runs| == 1 && runs[0].inputOptions == ["-y"]
        && runs[0].outputOptions[0] == "-s " + IntToString(spec.width) + "x" + IntToString(spec.height)
        && runs[0].outputOptions[1] == "-b:v " + IntToString(spec.bitrate) + "k"
      case PreviewClip =>
        && |runs| == 1
        && runs[0].outputOptions[1..4] == ["-ss 00:00:00", "-t 4", "-an"]
        && runs[0].outputOptions[5] == "scale=" + IntToString(spec.width) + ":" + IntToString(spec.height)
      case Thumbnails =>
        && |runs| == 2
        && runs[0].output == ThumbnailFramePattern(videoId) && runs[1].input == runs[0].output
        && runs[0].outputOptions[3] == "-frames:v 800" && runs[1].outputOptions[2] == "tile=20x40"
        && ThumbnailTileColumns * ThumbnailTileRows == ThumbnailFrameCap
  {
  }

  /** The outcome is `Completed` exactly when no planned run fails; a failure of the first
      run rejects; only a failure after the first run leaves the action unsettled. */
  lemma SettleCharacterised(runs: seq<EngineRun>, failing: set<EngineRun>)
    requires runs != []
    ensures Settle(runs, failing) == Completed <==> forall r :: r in runs ==> r !in failing
    ensures Settle(runs, failing) == Rejected <==> runs[0] in failing
    ensures Settle(runs, failing) == Completed ==> Attempted(runs, failing) == runs
  {
    var a := Attempted(runs, failing);
  }

  /** The artifact's extension, read back as the uploader reads it (`split('.').pop()`), is
      the encoding's container, which the uploader accepts. */
  lemma OutputPathExtension(sharedDirectory: string, videoId: string, spec: EncodingSpec)
    ensures LastSegment(OutputPath(sharedDirectory, videoId, spec), '.') == EC.Value(spec.container)
    ensures EC.IsEncodingContainer(Some(LastSegment(OutputPath(sharedDirectory, videoId, spec), '.')))
  {
    var ext := EC.Value(spec.container);
    var p := OutputPath(sharedDirectory, videoId, spec);
    var prefix := sharedDirectory + "/" + videoId + "-" + Value(spec.id);
    assert p == (prefix + ".") + ext;
    assert '.' !in ext;
    LastSegmentAfterSeparator(prefix, '.', ext);
    EC.ValueRoundTrip(spec.container);
  }

  /** The encoding engine: records each run; the runs in `failing` fail. */
  class Engine {
    var runs: seq<EngineRun>
    var failing: set<EngineRun>

    constructor (failing: set<EngineRun>)
      ensures runs == [] && this.failing == failing
    {
      runs := [];
      this.failing := failing;
    }

    method Run(run: EngineRun) returns (ok: bool)
      modifies this
      ensures runs == old(runs) + [run] && failing == old(failing)
      ensures ok == (run !in failing)
    {
      runs := runs + [run];
      ok := run !in failing;
    }
  }

  class EncodeVideoAction {
    const channel: Channel
    const engine: Engine
    const sharedDirectory: string

    constructor (channel: Channel, engine: Engine, sharedDirectory: string)
      ensures this.channel == channel && this.engine == engine && this.sharedDirectory == sharedDirectory
    {
      this.channel := channel;
      this.engine := engine;
      this.sharedDirectory := sharedDirectory;
    }

    method Execute(videoId: string, location: string, encoding: EncodingSpec) returns (outcome: EncodeOutcome)
      modifies channel, engine
      ensures var plan := EncoderRuns(sharedDirectory, videoId, location, encoding);
        && engine.runs == old(engine.runs) + Attempted(plan, old(engine.failing))
        && outcome == Settle(plan, old(engine.failing))
      ensures engine.failing == old(engine.failing)
      ensures channel.published == old(channel.published)
        + (if outcome == Completed
           then [Publication(ExchangeName, VideoEncoded, Encoded(videoId, OutputPath(sharedDirectory, videoId, encoding), encoding.id))]
           else [])
      ensures channel.settlements == old(channel.settlements) && channel.consumers == old(channel.consumers)
      ensures channel.prefetch == old(channel.prefetch) && channel.topology == old(channel.topology)
    {
      var outputPath := OutputPath(sharedDirectory, videoId, encoding);
      var plan := EncoderRuns(sharedDirectory, videoId, location, encoding);
      var ok := engine.Run(plan[0]);
      if !ok {
        return Rejected;
      }
      if |plan| == 2 {
        ok := engine.Run(plan[1]);
        if !ok {
          assert Attempted(plan, old(engine.failing)) == plan;
          return Unsettled;
        }
      }
      assert Attempted(plan, old(engine.failing)) == plan;
      channel.Publish(ExchangeName, VideoEncoded, Encoded(videoId, outputPath, encoding.id));
      return Completed;
    }
  }
}
