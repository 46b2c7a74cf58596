/**
  The track summariser of src/media/get_media_info.rs. The program runs
  `mediainfo --Output=JSON <file>`, walks the `media.track` array and turns
  every Video and every Audio track into one line of text. Running the
  process and parsing its JSON are abstracted: the outcome of the command is
  a `CommandOutcome`, and a track is a record of its optional string fields.
 */
module MediaInfo {
  import opened Wrappers
  import Convert
  import Outputs

  /**
    One element of `media.track`. A field is `None` when the JSON object has
    no such key or its value is not a string; a track that is not an object
    at all behaves as one whose fields are all `None`.
   */
  datatype Track = Track(
    trackType: Option<string>,          // "@type"
    codecId: Option<string>,            // "CodecID"
    bitRate: Option<string>,            // "BitRate"
    width: Option<string>,              // "Width"
    height: Option<string>,             // "Height"
    displayAspectRatio: Option<string>, // "DisplayAspectRatio"
    frameRate: Option<string>,          // "FrameRate"
    samplingRate: Option<string>,       // "SamplingRate"
    channels: Option<string>)           // "Channels"

  /** What parsing the standard output as JSON gave. */
  datatype Json =
    | Malformed                             // serde_json rejected the text
    | Parsed(tracks: Option<seq<Track>>)    // None: `media.track` is not an array

  /** What running `mediainfo` gave. */
  datatype CommandOutcome =
    | SpawnFailed                           // the process could not be run
    | Exited(success: bool, stdout: Json)   // exit status, and the parse of its output

  datatype MediaError = CommandFailed | InvalidJson

  /** The two lists handed to the report: video lines and audio lines. */
  datatype Summary = Summary(video: seq<string>, audio: seq<string>)

  /** The two kinds of track that produce a line. */
  datatype Kind = Video | Audio

  const Missing: string := "N/A"
  const NoVideoTrack: string := "No video track found"
  const NoAudioTrack: string := "No audio track found"
  /** The precision `{:.5}` used for the frame rate. */
  const FrameRatePrecision: nat := 5

  function KindName(k: Kind): string {
    match k
    case Video => "Video"
    case Audio => "Audio"
  }

  /** A field's text, "N/A" when it is missing. */
  function Field(f: Option<string>): (s: string)
    ensures f.Some? ==> s == f.value
    ensures f.None? ==> s == Missing
  {
    f.GetOr(Missing)
  }

  /** A string printed with precision n: at most its first n characters. */
  function Precision(s: string, n: nat): (r: string)
    ensures |r| <= n && r <= s
    ensures |s| <= n ==> r == s
    ensures |s| > n ==> |r| == n
  {
    if |s| <= n then s else s[..n]
  }

  /**
    The video line "{codec}, {w}x{h}p, {dar}, {fr:.5} FPS, {br}" with the
    codec prefixes removed. No prefix straddles a separator and the
    separators are kept, so each field is stripped on its own.
   */
  function VideoLine(t: Track, kbps: string -> string): (line: string)
    ensures line ==
      Outputs.RemovePrefixes(Field(t.codecId)) + ", " +
      Outputs.RemovePrefixes(Field(t.width)) + "x" +
      Outputs.RemovePrefixes(Field(t.height)) + "p, " +
      Outputs.RemovePrefixes(Convert.ConvertDisplayAspectRatio(Field(t.displayAspectRatio))) + ", " +
      Outputs.RemovePrefixes(Precision(Field(t.frameRate), FrameRatePrecision)) + " FPS, " +
      Outputs.RemovePrefixes(Outputs.FormatBitrate(Field(t.bitRate), kbps))
  {
    var codec, width, height := Field(t.codecId), Field(t.width), Field(t.height);
    var ratio := Convert.ConvertDisplayAspectRatio(Field(t.displayAspectRatio));
    var rate := Precision(Field(t.frameRate), FrameRatePrecision);
    var bitRate := Outputs.FormatBitrate(Field(t.bitRate), kbps);
    StripVideoFormat(codec, width, height, ratio, rate, bitRate);
    Outputs.RemovePrefixes(codec + ", " + width + "x" + height + "p, " + ratio + ", " + rate + " FPS, " + bitRate)
  }

  /** The audio line "{codec}, {sr} kHz, {ch} ch, {br}" with the codec
      prefixes removed, each field stripped on its own. */
  function AudioLine(t: Track, kbps: string -> string): (line: string)
    ensures line ==
      Outputs.RemovePrefixes(Field(t.codecId)) + ", " +
      Outputs.RemovePrefixes(Field(t.samplingRate)) + " kHz, " +
      Outputs.RemovePrefixes(Field(t.channels)) + " ch, " +
      Outputs.RemovePrefixes(Outputs.FormatBitrate(Field(t.bitRate), kbps))
  {
    var codec, rate, channels := Field(t.codecId), Field(t.samplingRate), Field(t.channels);
    var bitRate := Outputs.FormatBitrate(Field(t.bitRate), kbps);
    StripSeparated(codec, ", ", rate);
    StripSeparated(codec + ", " + rate, " kHz, ", channels);
    StripSeparated(codec + ", " + rate + " kHz, " + channels, " ch, ", bitRate);
    Outputs.RemovePrefixes(codec + ", " + rate + " kHz, " + channels + " ch, " + bitRate)
  }

  function Line(t: Track, k: Kind, kbps: string -> string): string {
    match k
    case Video => VideoLine(t, kbps)
    case Audio => AudioLine(t, kbps)
  }

  predicate IsKind(t: Track, k: Kind) {
    Field(t.trackType) == KindName(k)
  }

  /** One line per track of kind k, in track order. */
  function Lines(tracks: seq<Track>, k: Kind, kbps: string -> string): (lines: seq<string>)
    ensures |lines| == CountKind(tracks, k)
    decreases |tracks|
  {
    if tracks == [] then []
    else
      var last := tracks[|tracks| - 1];
      Lines(tracks[..|tracks| - 1], k, kbps) + (if IsKind(last, k) then [Line(last, k, kbps)] else [])
  }

  /** The number of tracks of kind k. */
  function CountKind(tracks: seq<Track>, k: Kind): nat
    decreases |tracks|
  {
    if tracks == [] then 0
    else CountKind(tracks[..|tracks| - 1], k) + (if IsKind(tracks[|tracks| - 1], k) then 1 else 0)
  }

  function OrPlaceholder(lines: seq<string>, placeholder: string): seq<string> {
    if lines == [] then [placeholder] else lines
  }

  /** Both lists replaced by their placeholders. */
  const NoTracks: Summary := Summary([NoVideoTrack], [NoAudioTrack])

  /** What `get_media_info` returns for a given command outcome. */
  function MediaInfoOf(output: CommandOutcome, kbps: string -> string): (r: Result<Summary, MediaError>)
    ensures r.Ok? ==> |r.value.video| >= 1 && |r.value.audio| >= 1
  {
    match output
    case SpawnFailed => Err(CommandFailed)
    case Exited(success, json) =>
      if !success then Ok(NoTracks)
      else
        match json
        case Malformed => Err(InvalidJson)
        case Parsed(None) => Ok(NoTracks)
        case Parsed(Some(tracks)) =>
          Ok(Summary(OrPlaceholder(Lines(tracks, Video, kbps), NoVideoTrack),
                     OrPlaceholder(Lines(tracks, Audio, kbps), NoAudioTrack)))
  }

  /** The loop of `get_media_info`, pushing into two growing lists. */
  method GetMediaInfo(output: CommandOutcome, kbps: string -> string) returns (res: Result<Summary, MediaError>)
    ensures res == MediaInfoOf(output, kbps)
  {
    var videoInfo: seq<string> := [];
    var audioInfo: seq<string> := [];
    ghost var listed: seq<Track> := [];
    match output {
      case SpawnFailed =>
        return Err(CommandFailed);
      case Exited(success, json) =>
        if success {
          match json {
            case Malformed =>
              return Err(InvalidJson);
            case Parsed(mediaTracks) =>
              if mediaTracks.Some? {
                var tracks := mediaTracks.value;
                var i := 0;
                while i < |tracks|
                  invariant 0 <= i <= |tracks|
                  invariant videoInfo == Lines(tracks[..i], Video, kbps)
                  invariant audioInfo == Lines(tracks[..i], Audio, kbps)
                {
                  var track := tracks[i];
                  var trackType := Field(track.trackType);
                  if trackType == "Video" {
                    videoInfo := videoInfo + [VideoLine(track, kbps)];
                  } else if trackType == "Audio" {
                    audioInfo := audioInfo + [AudioLine(track, kbps)];
                  }
                  assert tracks[..i + 1][..i] == tracks[..i];
                  i := i + 1;
                }
                assert tracks[..|tracks|] == tracks;
                listed := tracks;
              }
          }
        }
    }
    assert videoInfo == Lines(listed, Video, kbps) && audioInfo == Lines(listed, Audio, kbps);
    assert MediaInfoOf(output, kbps) ==
           Ok(Summary(OrPlaceholder(Lines(listed, Video, kbps), NoVideoTrack),
                      OrPlaceholder(Lines(listed, Audio, kbps), NoAudioTrack)));
    if videoInfo == [] {
      videoInfo := videoInfo + [NoVideoTrack];
    }
    if audioInfo == [] {
      audioInfo := audioInfo + [NoAudioTrack];
    }
    assert videoInfo == OrPlaceholder(Lines(listed, Video, kbps), NoVideoTrack);
    assert audioInfo == OrPlaceholder(Lines(listed, Audio, kbps), NoAudioTrack);
    res := Ok(Summary(videoInfo, audioInfo));
  }

  // ---------------------------------------------------------------------
  // Properties of the specification.

  /** Lines of a concatenation are the lines of each part: the order of tracks is kept. */
  lemma {:induction false} LinesConcat(a: seq<Track>, b: seq<Track>, k: Kind, kbps: string -> string)
    ensures Lines(a + b, k, kbps) == Lines(a, k, kbps) + Lines(b, k, kbps)
    decreases |b|
  {
    if b == [] {
      assert a + b == a;
    } else {
      var b' := b[..|b| - 1];
      assert (a + b)[..|a + b| - 1] == a + b';
      LinesConcat(a, b', k, kbps);
    }
  }

  /** A track of another kind (such as "General") adds no line. */
  lemma OtherTrackAddsNothing(tracks: seq<Track>, t: Track, k: Kind, kbps: string -> string)
    requires !IsKind(t, k)
    ensures Lines(tracks + [t], k, kbps) == Lines(tracks, k, kbps)
  {
    assert (tracks + [t])[..|tracks|] == tracks;
  }

  /** The line of the j-th track of kind k sits at position j. */
  lemma {:induction false} LineAt(tracks: seq<Track>, i: nat, k: Kind, kbps: string -> string)
    requires i < |tracks| && IsKind(tracks[i], k)
    ensures CountKind(tracks[..i], k) < |Lines(tracks, k, kbps)|
    ensures Lines(tracks, k, kbps)[CountKind(tracks[..i], k)] == Line(tracks[i], k, kbps)
  {
    var before := tracks[..i];
    var after := tracks[i + 1..];
    assert tracks == before + [tracks[i]] + after;
    LinesConcat(before + [tracks[i]], after, k, kbps);
    assert (before + [tracks[i]])[..i] == before;
  }

  /** On `Ok` both lists are non-empty; a list is its placeholder exactly when
      no track of that kind is present. */
  lemma SummaryShape(output: CommandOutcome, kbps: string -> string)
    requires output.Exited? && output.success && output.stdout.Parsed? && output.stdout.tracks.Some?
    ensures var tracks := output.stdout.tracks.value;
            var s := MediaInfoOf(output, kbps).value;
            MediaInfoOf(output, kbps).Ok? &&
            (CountKind(tracks, Video) == 0 ==> s.video == [NoVideoTrack]) &&
            (CountKind(tracks, Video) > 0 ==> s.video == Lines(tracks, Video, kbps) && |s.video| == CountKind(tracks, Video)) &&
            (CountKind(tracks, Audio) == 0 ==> s.audio == [NoAudioTrack]) &&
            (CountKind(tracks, Audio) > 0 ==> s.audio == Lines(tracks, Audio, kbps) && |s.audio| == CountKind(tracks, Audio))
  {
  }

  /** The error outcomes: the command could not be run, or its output was not JSON. */
  lemma ErrorOutcomes(output: CommandOutcome, kbps: string -> string)
    ensures MediaInfoOf(output, kbps) == Err(CommandFailed) <==> output.SpawnFailed?
    ensures MediaInfoOf(output, kbps) == Err(InvalidJson) <==>
            output.Exited? && output.success && output.stdout.Malformed?
    ensures MediaInfoOf(output, kbps).Ok? <==>
            output.Exited? && (!output.success || output.stdout.Parsed?)
  {
  }

  /** A failed exit status, or output without a `media.track` array, gives
      both placeholders and no error. */
  lemma NoTrackArrayGivesPlaceholders(output: CommandOutcome, kbps: string -> string)
    requires output.Exited? && (!output.success || output.stdout == Parsed(None))
    ensures MediaInfoOf(output, kbps) == Ok(Summary([NoVideoTrack], [NoAudioTrack]))
  {
  }

  /** A separator that no prefix match can touch or straddle: it has no
      underscore and does not end in V or A. */
  predicate IsSafeSeparator(sep: string) {
    |sep| > 0 && !Outputs.IsPrefixLetter(sep[|sep| - 1]) &&
    forall i :: 0 <= i < |sep| ==> sep[i] != '_'
  }

  /** Appending a safe separator and a field: each part is stripped on its own. */
  lemma StripSeparated(left: string, sep: string, field: string)
    requires IsSafeSeparator(sep)
    ensures Outputs.RemovePrefixes(left + sep + field) ==
            Outputs.RemovePrefixes(left) + sep + Outputs.RemovePrefixes(field)
  {
    Outputs.RemovePrefixesConcat(left, sep);
    Outputs.NoUnderscoreUnchanged(sep);
    Outputs.RemovePrefixesConcat(left + sep, field);
  }

  /** The video format, with any six field values: stripping the line strips
      each field on its own. */
  lemma StripVideoFormat(codec: string, width: string, height: string, ratio: string, rate: string, bitRate: string)
    ensures Outputs.RemovePrefixes(codec + ", " + width + "x" + height + "p, " + ratio + ", " + rate + " FPS, " + bitRate) ==
      Outputs.RemovePrefixes(codec) + ", " + Outputs.RemovePrefixes(width) + "x" +
      Outputs.RemovePrefixes(height) + "p, " + Outputs.RemovePrefixes(ratio) + ", " +
      Outputs.RemovePrefixes(rate) + " FPS, " + Outputs.RemovePrefixes(bitRate)
  {
    var l1 := codec + ", " + width;
    var l2 := l1 + "x" + height;
    var l3 := l2 + "p, " + ratio;
    var l4 := l3 + ", " + rate;
    var l5 := l4 + " FPS, " + bitRate;
    var r1 := Outputs.RemovePrefixes(codec) + ", " + Outputs.RemovePrefixes(width);
    var r2 := r1 + "x" + Outputs.RemovePrefixes(height);
    var r3 := r2 + "p, " + Outputs.RemovePrefixes(ratio);
    var r4 := r3 + ", " + Outputs.RemovePrefixes(rate);
    var r5 := r4 + " FPS, " + Outputs.RemovePrefixes(bitRate);
    assert Outputs.RemovePrefixes(l1) == r1 by { StripSeparated(codec, ", ", width); }
    assert Outputs.RemovePrefixes(l2) == r2 by { StripSeparated(l1, "x", height); }
    assert Outputs.RemovePrefixes(l3) == r3 by { StripSeparated(l2, "p, ", ratio); }
    assert Outputs.RemovePrefixes(l4) == r4 by { StripSeparated(l3, ", ", rate); }
    assert Outputs.RemovePrefixes(l5) == r5 by { StripSeparated(l4, " FPS, ", bitRate); }
  }

  /** `{:.5}` keeps the first five characters of a longer frame rate. */
  lemma FrameRateTruncated()
    ensures Precision("23.976023976", FrameRatePrecision) == "23.97"
    ensures Precision("25.000", FrameRatePrecision) == "25.00"
    ensures Precision("N/A", FrameRatePrecision) == "N/A"
  {
  }

  /** The line of a Video track with no other field: "N/A" everywhere. */
  lemma BareVideoLine(t: Track, kbps: string -> string)
    requires t.codecId.None? && t.width.None? && t.height.None? && t.displayAspectRatio.None?
    requires t.frameRate.None? && t.bitRate.None?
    ensures VideoLine(t, kbps) == "N/A, N/AxN/Ap, N/A, N/A FPS, N/A"
  {
    var m := Missing;
    var formatted := m + ", " + m + "x" + m + "p, " + m + ", " + m + " FPS, " + m;
    assert VideoLine(t, kbps) == Outputs.RemovePrefixes(formatted) by {
      assert Convert.ConvertDisplayAspectRatio(m) == m by { Convert.ExactMatchOnly(); }
      assert Outputs.FormatBitrate(m, kbps) == m by { Outputs.MissingBitratePassesThrough(kbps); }
      assert Precision(m, FrameRatePrecision) == m;
    }
    assert Outputs.RemovePrefixes(formatted) == formatted by {
      assert Outputs.RemovePrefixes(m) == m by { Outputs.NoUnderscoreUnchanged(m); }
      StripVideoFormat(m, m, m, m, m, m);
    }
    BareVideoText();
  }

  /** The video format filled with "N/A", as one literal. */
  lemma BareVideoText()
    ensures Missing + ", " + Missing + "x" + Missing + "p, " + Missing + ", " + Missing + " FPS, " + Missing
         == "N/A, N/AxN/Ap, N/A, N/A FPS, N/A"
  {
    var m := Missing;
    assert m + ", " == "N/A, ";
    assert "N/A, " + m == "N/A, N/A";
    assert "N/A, N/A" + "x" == "N/A, N/Ax";
    assert "N/A, N/Ax" + m == "N/A, N/AxN/A";
    assert "N/A, N/AxN/A" + "p, " == "N/A, N/AxN/Ap, ";
    assert "N/A, N/AxN/Ap, " + m == "N/A, N/AxN/Ap, N/A";
    assert "N/A, N/AxN/Ap, N/A" + ", " == "N/A, N/AxN/Ap, N/A, ";
    assert "N/A, N/AxN/Ap, N/A, " + m == "N/A, N/AxN/Ap, N/A, N/A";
    assert "N/A, N/AxN/Ap, N/A, N/A" + " FPS, " == "N/A, N/AxN/Ap, N/A, N/A FPS, ";
  }

  /** Such a track gives one video line and no audio line. */
  lemma BareVideoTrack(kbps: string -> string)
    ensures var t := Track(Some("Video"), None, None, None, None, None, None, None, None);
            Lines([t], Video, kbps) == ["N/A, N/AxN/Ap, N/A, N/A FPS, N/A"] &&
            Lines([t], Audio, kbps) == []
  {
    var t := Track(Some("Video"), None, None, None, None, None, None, None, None);
    BareVideoLine(t, kbps);
    assert [t][..0] == [];
  }

  /** A track whose "@type" is missing or neither "Video" nor "Audio" adds no line. */
  lemma UntypedTrackIgnored(t: Track, kbps: string -> string)
    requires t.trackType.None? || (t.trackType.value != "Video" && t.trackType.value != "Audio")
    ensures Lines([t], Video, kbps) == [] && Lines([t], Audio, kbps) == []
  {
  }
}
