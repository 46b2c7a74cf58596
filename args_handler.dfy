/**
  The command-line entry of src/core/args_handler.rs. With one argument that
  is not a version flag, the program summarises that file's tracks, writes
  the report and opens it in Notepad; otherwise it prints usage or version
  text. Console output, Notepad and the file removal are represented only by
  the `Outcome` that says which of these happened.
 */
module ArgsHandler {
  import opened Wrappers
  import MediaInfo
  import Notepad

  /** The three ways the arguments are read. */
  datatype Action = ShowUsage | ShowVersion | ProcessFile(path: string)

  /** What the user is shown after a run. */
  datatype Outcome =
    | Usage                                   // logo and usage text
    | Version                                 // logo, version and author
    | MediaInfoFailed                         // "mediainfo" could not be run or gave bad JSON
    | ReportFailed(error: Notepad.IoError)    // the temporary file could not be written
    | Opened(path: string, content: string)   // Notepad opened on the report

  /** The outside world the handler talks to. */
  datatype Environment = Environment(
    mediainfo: string -> MediaInfo.CommandOutcome,  // running mediainfo on a path
    kbps: string -> string,                         // numeric bitrate rendering
    fs: Notepad.FileSystem)

  predicate IsVersionFlag(arg: string) {
    arg == "-v" || arg == "--version"
  }

  /** The decision on the argument list (`args[0]` is the program name). */
  function Dispatch(args: seq<string>): (a: Action)
    ensures a == ShowUsage <==> |args| != 2
    ensures a == ShowVersion <==> |args| == 2 && IsVersionFlag(args[1])
    ensures a.ProcessFile? <==> |args| == 2 && !IsVersionFlag(args[1])
    ensures a.ProcessFile? ==> a.path == args[1]
  {
    if |args| != 2 then ShowUsage
    else if IsVersionFlag(args[1]) then ShowVersion
    else ProcessFile(args[1])
  }

  /** What a run with these arguments shows. */
  function OutcomeOf(args: seq<string>, env: Environment): (shown: Outcome)
    ensures shown == Usage <==> |args| != 2
    ensures shown == Version <==> |args| == 2 && IsVersionFlag(args[1])
    ensures shown.Opened? ==> shown.path == Notepad.JoinPath(env.fs.tempDir, Notepad.ReportFileName)
  {
    match Dispatch(args)
    case ShowUsage => Usage
    case ShowVersion => Version
    case ProcessFile(path) => ReportOutcome(MediaInfo.MediaInfoOf(env.mediainfo(path), env.kbps), env.fs)
  }

  /** What processing a file shows, given what `get_media_info` returned. */
  function ReportOutcome(info: Result<MediaInfo.Summary, MediaInfo.MediaError>, fs: Notepad.FileSystem): (shown: Outcome)
    ensures shown == MediaInfoFailed <==> info.Err?
    ensures shown == ReportFailed(Notepad.CreateFailed) <==> info.Ok? && !fs.canCreate
    ensures shown == ReportFailed(Notepad.WriteFailed) <==>
            info.Ok? && fs.canCreate && fs.failingWrite.Some? &&
            fs.failingWrite.value < |info.value.video + info.value.audio|
    ensures shown.Opened? <==>
            info.Ok? && fs.canCreate &&
            (fs.failingWrite.Some? ==> fs.failingWrite.value >= |info.value.video + info.value.audio|)
    ensures shown.Opened? ==> shown.content == Notepad.Report(info.value.video) + Notepad.Report(info.value.audio)
  {
    match info
    case Err(_) => MediaInfoFailed
    case Ok(summary) =>
      var entries := summary.video + summary.audio;
      Notepad.ReportConcat(summary.video, summary.audio);
      if !fs.canCreate then ReportFailed(Notepad.CreateFailed)
      else if Notepad.WritesDone(fs, |entries|) < |entries| then ReportFailed(Notepad.WriteFailed)
      else Opened(Notepad.JoinPath(fs.tempDir, Notepad.ReportFileName), Notepad.Report(entries))
  }

  /** `handle_args`: every failure is only reported to the user, the result is always `Ok`. */
  method HandleArgs(args: seq<string>, env: Environment) returns (r: Result<(), string>, shown: Outcome)
    ensures r == Ok(())
    ensures shown == OutcomeOf(args, env)
  {
    if |args| != 2 {
      return Ok(()), Usage;
    }
    if IsVersionFlag(args[1]) {
      return Ok(()), Version;
    }
    // Here the argument count is known to be 2.
    var filePath := args[1];
    assert Dispatch(args) == ProcessFile(filePath);
    var output := MediaInfo.GetMediaInfo(env.mediainfo(filePath), env.kbps);
    assert OutcomeOf(args, env) == ReportOutcome(output, env.fs);
    match output {
      case Ok(summary) =>
        var tempFilePath, written := Notepad.CreateTempFile(env.fs, summary.video, summary.audio);
        ghost var entries := summary.video + summary.audio;
        assert entries[..|entries|] == entries;
        if tempFilePath.Err? {
          shown := ReportFailed(tempFilePath.error);
        } else {
          shown := Opened(tempFilePath.value, written);
        }
      case Err(_) =>
        shown := MediaInfoFailed;
    }
    r := Ok(());
  }

  /** The version flag counts only as the sole argument. */
  lemma VersionFlagAlone()
    ensures Dispatch(["mediasherlock", "-v"]) == ShowVersion
    ensures Dispatch(["mediasherlock", "--version"]) == ShowVersion
    ensures Dispatch(["mediasherlock", "-v", "x"]) == ShowUsage
    ensures Dispatch(["mediasherlock"]) == ShowUsage
    ensures Dispatch(["mediasherlock", "-V"]) == ProcessFile("-V")
  {
  }

  /**
    When every step succeeds the report in the opened file lists the video
    lines, then the audio lines, and reads back as exactly those lines.
   */
  lemma {:induction false} SuccessfulRun(args: seq<string>, env: Environment)
    requires Dispatch(args).ProcessFile?
    requires MediaInfo.MediaInfoOf(env.mediainfo(args[1]), env.kbps).Ok?
    requires env.fs.canCreate
    requires env.fs.failingWrite.Some? ==>
             var s := MediaInfo.MediaInfoOf(env.mediainfo(args[1]), env.kbps).value;
             env.fs.failingWrite.value >= |s.video + s.audio|
    ensures var s := MediaInfo.MediaInfoOf(env.mediainfo(args[1]), env.kbps).value;
            var shown := OutcomeOf(args, env);
            shown.Opened? &&
            shown.path == Notepad.JoinPath(env.fs.tempDir, Notepad.ReportFileName) &&
            shown.content == Notepad.Report(s.video) + Notepad.Report(s.audio) &&
            ((forall k :: 0 <= k < |s.video + s.audio| ==> Notepad.HasNoNewline((s.video + s.audio)[k])) ==>
               Notepad.SplitLines(shown.content) == s.video + s.audio)
  {
    var s := MediaInfo.MediaInfoOf(env.mediainfo(args[1]), env.kbps).value;
    Notepad.ReportConcat(s.video, s.audio);
    if forall k :: 0 <= k < |s.video + s.audio| ==> Notepad.HasNoNewline((s.video + s.audio)[k]) {
      Notepad.SplitReport(s.video + s.audio);
    }
  }
}
